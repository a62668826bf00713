/** Any number of goroutines on one manager. Mutators contend for the one-slot admission channel, then
    work under it step by step: identifier, events, load, the write critical section. Readers take the
    read lock and copy the fields one group at a time. A run is any sequence of actions; an action of a
    goroutine that is blocked changes nothing but the time. */
module Concurrent {
  import opened Core
  import opened Errors
  import opened Pipelines
  import opened LoadLaws
  import opened Lifecycle
  import opened RunLaws
  import opened Views

  /** A view a reader has returned, the snapshot it was taken of, and how many accepted results had been
      committed when it took the lock. */
  datatype Observed<+T> = Observed(view: View, snapshot: Option<Snapshot<T>>, upTo: nat)

  datatype Thread<!T> =
    // lifecycleAdmission.acquire
    | Entering(op: Op<T>)
    | Selecting(op: Op<T>)
    | Rechecking(op: Op<T>)
    | Turned(op: Op<T>, cause: Error)
    // admitted
    | Admitted(op: Op<T>, t: Moments)
    | Fetched(op: Op<T>, t: Moments)
    | Numbered(op: Op<T>, t: Moments, id: nat)
    | Announcing(op: Op<T>, t: Moments, id: nat, seen: LifecycleState)
    | Announced(op: Op<T>, t: Moments, id: nat)
    | Loading(op: Op<T>, t: Moments, id: nat)
    | Locking(op: Op<T>, t: Moments, result: LoadResult<T>, err: Option<Error>)
    | Draining(op: Op<T>, t: Moments, result: LoadResult<T>, err: Option<Error>)
    | Writing(op: Op<T>, t: Moments, result: LoadResult<T>, err: Option<Error>, phase: nat, apply: ApplyResult)
    | Committed(op: Op<T>, t: Moments, result: LoadResult<T>, err: Option<Error>, apply: ApplyResult)
    | Finished(op: Op<T>, t: Moments, result: LoadResult<T>, err: Option<Error>, apply: ApplyResult)
    | Releasing(op: Op<T>, t: Moments, reply: Reply<T>)
    | Returned(op: Op<T>, t: Moments, reply: Reply<T>, place: nat)
    // readers
    | Resting(views: seq<Observed<T>>)
    | Viewing(views: seq<Observed<T>>, status: Option<Status>, current: Option<Option<Snapshot<T>>>,
              attempts: Option<seq<AttemptRecord>>)

  /** Shared memory, the locks, and the goroutines. `admissions` and `completions` list who was admitted
      and who released the token, in order; `entries` are the operations of the latter. */
  datatype System<!T> = System(
    now: nat,
    held: nat,
    lock: WriteLock,
    readers: set<nat>,
    run: Run<T>,
    threads: map<nat, Thread<T>>,
    entries: seq<Entry<T>>,
    admissions: seq<nat>,
    completions: seq<nat>
  )

  datatype Action<!T> =
    | Call(tid: nat, op: Op<T>)
    | Watch(tid: nat)
    // `preferDone` is the select's choice; `delay` is the time that passes
    | Step(tid: nat, preferDone: bool, delay: nat)

  const NO_MOMENTS := Moments(0, 0, 0, 0, 0, 0, 0)

  function Initial<T>(limit: int): System<T> {
    System(0, 0, Unlocked, {}, InitialRun(limit), map[], [], [], [])
  }

  predicate HasToken<T>(th: Thread<T>) {
    match th
    case Rechecking(_) | Admitted(_, _) | Fetched(_, _) | Numbered(_, _, _) | Announcing(_, _, _, _)
       | Announced(_, _, _) | Loading(_, _, _) | Locking(_, _, _, _) | Draining(_, _, _, _)
       | Writing(_, _, _, _, _, _) | Committed(_, _, _, _, _)
       | Finished(_, _, _, _, _) | Releasing(_, _, _) => true
    case _ => false
  }

  // ---------------------------------------------------------------- steps under the token

  /** A goroutine's next control point, the memory, and the time. */
  datatype Moved<!T> = Moved(thread: Thread<T>, run: Run<T>, now: nat)

  /** The steps that take no lock, or only the read lock for one field. */
  function Move<T>(clock: nat -> Time, th: Thread<T>, run: Run<T>, now: nat): Moved<T> {
    match th
    case Admitted(op, t) =>
      if op.ApplyOp? then
        if !Applicable(op.result) then
          Moved(Releasing(op, t, Applied(NO_APPLY, Some(Wrap(InvalidReason(op.result).value, InvalidLoadResult)))),
                run, now + 1)
        else
          var numbered := AssignId(run);
          Moved(Locking(op, t, WithId(op.result, numbered.m.nextId), None), numbered, now + 1)
      else if op.LoadOp? then
        var numbered := AssignId(run);
        Moved(Numbered(op, t, numbered.m.nextId), numbered, now + 1)
      else
        Moved(Fetched(op, t.(startedAt := now, metadataAt := now + 1)),
              run.(sourceCalls := run.sourceCalls + MetadataCalls(op)), now + 2)
    case Fetched(op, t) =>
      var numbered := AssignId(run);
      Moved(Numbered(op, t, numbered.m.nextId), numbered, now + 1)
    case Numbered(op, t, id) =>
      Moved(Announcing(op, t, id, LifecycleStateOf(run.m)), run, now + 1)
    case Announcing(op, t, id, seen) =>
      if op.ApplyOp? then Moved(th, run, now) else
      var event := StartedEvent(id, KindOf(op), AnnouncedSource(op, t), AnnouncedRevision(op), seen, clock(now));
      Moved(Announced(op, t.(announcedAt := now), id), Emit(run, event), now + 1)
    case Announced(op, t, id) =>
      if op.ApplyOp? then Moved(th, run, now) else
      var t' := if op.LoadOp? then t.(startedAt := now, loadAt := now + 1) else t.(loadAt := now + 1);
      Moved(Loading(op, t', id), run, now + 1)
    case Loading(op, t, id) =>
      if op.ApplyOp? then Moved(th, run, now) else
      var loaded := OutcomeOf(clock, op, t);
      var result := WithId(loaded.result, id);
      var read := Obtain(run, op, t);
      var end := if now < loaded.end then loaded.end else now;
      if Applicable(result) then Moved(Locking(op, t, result, loaded.err), read, end)
      else Moved(Committed(op, t, result, SettleErr(result, loaded.err), NO_APPLY), read, end)
    case Committed(op, t, result, err, apply) =>
      if op.ApplyOp? then Moved(Finished(op, t, result, err, apply), run, now + 1)
      else
        var event := FinishedEvent(result.attempt.id, KindOf(op), result, apply, err, clock(now));
        Moved(Finished(op, t.(finishedAt := now), result, err, apply), Emit(run, event), now + 1)
    case Finished(op, t, result, err, apply) =>
      var reply := if op.ApplyOp? then Applied(apply, err) else Managed(result, apply, err);
      Moved(Releasing(op, t.(publishedAt := now), reply), EmitApplied(run, result.attempt, apply, clock(now)), now + 1)
    case _ => Moved(th, run, now)
  }

  /** The writes of `apply`, one group at a time, under the write lock; the last step unlocks. */
  function WriteStep<T>(clock: nat -> Time, th: Thread<T>, run: Run<T>, now: nat): Moved<T>
    requires th.Writing?
  {
    var Writing(op, t, result, err, phase, apply) := th;
    var m := run.m;
    if phase == 0 then
      Moved(th.(phase := 1, t := t.(committedAt := now)), run.(m := m.(lastAttempt := Some(result.attempt))), now + 1)
    else if phase == 1 then
      Moved(th.(phase := 2), run.(m := m.(history := Remember(m.history, result.attempt, m.limit))), now + 1)
    else if phase == 2 then
      var previous := MetadataOf(m.current);
      var written := WriteOutcome(m, result);
      var current := if Publishes(result) then Some(result.snapshot.value.metadata) else previous;
      var changed := Publishes(result)
                     && (previous.None? || previous.value.checksum != result.snapshot.value.metadata.checksum);
      var made := ApplyResult(Publishes(result), changed, previous, current, LifecycleStateOf(written),
                              clock(t.committedAt));
      Moved(th.(phase := 3, apply := made), run.(m := written), now + 1)
    else if phase == 3 then
      Moved(th.(phase := 4), run.(m := WriteApply(m, apply)), now + 1)
    else
      Moved(Committed(op, t, result, err, apply),
            run.(accepted := run.accepted + [Accepted(op.ApplyOp?, result, apply)]), now + 1)
  }

  // ---------------------------------------------------------------- the system

  function Put<T>(s: System<T>, tid: nat, moved: Moved<T>, delay: nat): System<T> {
    s.(threads := s.threads[tid := moved.thread], run := moved.run, now := moved.now + delay)
  }

  function Act<T>(clock: nat -> Time, s: System<T>, a: Action<T>): System<T> {
    match a
    case Call(tid, op) => if tid in s.threads then s else s.(threads := s.threads[tid := Entering(op)])
    case Watch(tid) => if tid in s.threads then s else s.(threads := s.threads[tid := Resting([])])
    case Step(tid, preferDone, delay) =>
      if tid !in s.threads then s else StepThread(clock, s, tid, s.threads[tid], preferDone, delay)
  }

  function StepThread<T>(clock: nat -> Time, s: System<T>, tid: nat, th: Thread<T>, preferDone: bool, delay: nat)
    : System<T>
  {
    var waited := s.(now := s.now + delay);
    match th
    case Entering(op) =>
      var e := op.ctx.Err(s.now);
      Put(s, tid, Moved(if e.Some? then Turned(op, e.value) else Selecting(op), s.run, s.now + 1), delay)
    case Selecting(op) =>
      var e := op.ctx.Err(s.now);
      if s.held < 1 && !(e.Some? && preferDone) then
        Put(s, tid, Moved(Rechecking(op), s.run, s.now + 1), delay).(held := s.held + 1)
      else if e.Some? then Put(s, tid, Moved(Turned(op, e.value), s.run, s.now + 1), delay)
      else waited
    case Rechecking(op) =>
      var e := op.ctx.Err(s.now);
      if e.None? then
        Put(s, tid, Moved(Admitted(op, NO_MOMENTS), s.run, s.now + 1), delay).(admissions := s.admissions + [tid])
      else if s.held == 0 then waited
      else Put(s, tid, Moved(Turned(op, e.value), s.run, s.now + 1), delay).(held := s.held - 1)
    case Numbered(_, _, _) =>
      if !s.lock.Unlocked? then waited else Put(s, tid, Move(clock, th, s.run, s.now), delay)
    case Locking(op, t, result, err) =>
      if !s.lock.Unlocked? then waited
      else Put(s, tid, Moved(Draining(op, t, result, err), s.run, s.now + 1), delay).(lock := Requested(tid))
    case Draining(op, t, result, err) =>
      if s.readers != {} then waited
      else Put(s, tid, Moved(Writing(op, t, result, err, 0, NO_APPLY), s.run, s.now + 1), delay).(lock := Held(tid))
    case Writing(_, _, _, _, phase, _) =>
      var next := Put(s, tid, WriteStep(clock, th, s.run, s.now), delay);
      if phase >= 4 then next.(lock := Unlocked) else next
    case Releasing(op, t, reply) =>
      if s.held == 0 then waited
      else
        Put(s, tid, Moved(Returned(op, t, reply, |s.entries|), s.run, s.now + 1), delay)
        .(held := s.held - 1, entries := s.entries + [Entry(op, t)], completions := s.completions + [tid])
    case Resting(views) =>
      if !s.lock.Unlocked? then waited
      else Put(s, tid, Moved(Viewing(views, None, None, None), s.run, s.now + 1), delay).(readers := s.readers + {tid})
    case Viewing(views, status, current, attempts) =>
      if status.None? then
        Put(s, tid, Moved(th.(status := Some(StatusOf(s.run.m))), s.run, s.now + 1), delay)
      else if current.None? then
        Put(s, tid, Moved(th.(current := Some(s.run.m.current)), s.run, s.now + 1), delay)
      else if attempts.None? then
        Put(s, tid, Moved(th.(attempts := Some(s.run.m.history)), s.run, s.now + 1), delay)
      else
        var view := View(status.value, RedactedIn(current.value), attempts.value, s.run.m.lastApply);
        var seen := Observed(view, current.value, |s.run.accepted|);
        Put(s, tid, Moved(Resting(views + [seen]), s.run, s.now + 1), delay)
        .(readers := s.readers - {tid})
    case _ =>
      Put(s, tid, Move(clock, th, s.run, s.now), delay)
  }

  function Exec<T>(clock: nat -> Time, limit: int, actions: seq<Action<T>>): System<T> {
    if actions == [] then Initial(limit)
    else Act(clock, Exec(clock, limit, actions[..|actions| - 1]), actions[|actions| - 1])
  }

  // ---------------------------------------------------------------- what a token holder has done so far

  /** The run when the holder's result is ready to be applied. */
  function ReadyRun<T>(clock: nat -> Time, base: Run<T>, op: Op<T>, t: Moments): Run<T> {
    if op.ApplyOp? then AssignId(base) else Obtain(Announce(clock, Begin(base, op), op, t), op, t)
  }

  function ResultOf<T>(clock: nat -> Time, base: Run<T>, op: Op<T>, t: Moments): LoadResult<T> {
    WithId(if op.ApplyOp? then op.result else OutcomeOf(clock, op, t).result, NextId(base.m.nextId))
  }

  function ErrOf<T>(clock: nat -> Time, op: Op<T>, t: Moments): Option<Error> {
    if op.ApplyOp? then None else OutcomeOf(clock, op, t).err
  }

  /** The run when the completion event, if there is one, is out. */
  function FinishedRun<T>(clock: nat -> Time, base: Run<T>, op: Op<T>, t: Moments): Run<T> {
    var ready := ReadyRun(clock, base, op, t);
    var result := ResultOf(clock, base, op, t);
    var at := clock(t.committedAt);
    var committed := CommitResult(ready, op.ApplyOp?, result, at);
    if op.ApplyOp? then committed
    else
      Emit(committed, FinishedEvent(result.attempt.id, KindOf(op), result, ApplyOf(ready.m, result, at),
                                    ErrOf(clock, op, t), clock(t.finishedAt)))
  }

  ghost predicate HasResult<T>(clock: nat -> Time, base: Run<T>, op: Op<T>, t: Moments, result: LoadResult<T>,
                               err: Option<Error>)
  {
    && result == ResultOf(clock, base, op, t) && err == ErrOf(clock, op, t)
    && Applicable(result)
  }

  /** The state after the first `phase` groups of writes. */
  function Partly<T>(m: State<T>, result: LoadResult<T>, at: Time, phase: nat): State<T> {
    if phase == 0 then m
    else if phase == 1 then m.(lastAttempt := Some(result.attempt))
    else if phase == 2 then WriteAttempt(m, result.attempt)
    else if phase == 3 then WriteOutcome(WriteAttempt(m, result.attempt), result)
    else Commit(m, result, at)
  }

  /** The memory is exactly what the holder's steps so far have made of the run it was admitted to. */
  ghost predicate Explains<T>(clock: nat -> Time, th: Thread<T>, base: Run<T>, run: Run<T>) {
    match th
    case Rechecking(_) => run == base
    case Admitted(_, _) => run == base
    case Fetched(op, t) =>
      op.SourceOp? && run == base.(sourceCalls := base.sourceCalls + MetadataCalls(op))
    case Numbered(op, t, id) =>
      !op.ApplyOp? && run == Begin(base, op) && id == NextId(base.m.nextId)
    case Announcing(op, t, id, seen) =>
      !op.ApplyOp? && run == Begin(base, op) && id == NextId(base.m.nextId) && seen == LifecycleStateOf(run.m)
    case Announced(op, t, id) =>
      !op.ApplyOp? && run == Announce(clock, Begin(base, op), op, t) && id == NextId(base.m.nextId)
    case Loading(op, t, id) =>
      !op.ApplyOp? && run == Announce(clock, Begin(base, op), op, t) && id == NextId(base.m.nextId)
    case Draining(op, t, result, err) =>
      HasResult(clock, base, op, t, result, err) && run == ReadyRun(clock, base, op, t)
    case Locking(op, t, result, err) =>
      HasResult(clock, base, op, t, result, err) && run == ReadyRun(clock, base, op, t)
    case Writing(op, t, result, err, phase, apply) =>
      var ready := ReadyRun(clock, base, op, t);
      && phase <= 4
      && HasResult(clock, base, op, t, result, err)
      && run == ready.(m := Partly(ready.m, result, clock(t.committedAt), phase))
      && (phase >= 3 ==> apply == ApplyOf(ready.m, result, clock(t.committedAt)))
    case Committed(op, t, result, err, apply) =>
      var ready := ReadyRun(clock, base, op, t);
      && HasResult(clock, base, op, t, result, err)
      && run == CommitResult(ready, op.ApplyOp?, result, clock(t.committedAt))
      && apply == ApplyOf(ready.m, result, clock(t.committedAt))
    case Finished(op, t, result, err, apply) =>
      && HasResult(clock, base, op, t, result, err)
      && apply == ApplyOf(ReadyRun(clock, base, op, t).m, result, clock(t.committedAt))
      && run == FinishedRun(clock, base, op, t)
    case Releasing(op, t, reply) => (run, reply) == Perform(clock, base, op, t)
    case _ => true
  }

  lemma MoveExplains<T>(clock: nat -> Time, th: Thread<T>, base: Run<T>, run: Run<T>, now: nat)
    requires HasToken(th) && Explains(clock, th, base, run)
    requires !th.Rechecking? && !th.Locking? && !th.Draining? && !th.Writing? && !th.Releasing?
    ensures var moved := Move(clock, th, run, now);
      HasToken(moved.thread) && Explains(clock, moved.thread, base, moved.run)
  {
    hide Move, Explains, HasToken;
    Workers(th);
    if th.Finished? {
      FinishedExplains(clock, th, base, run, now);
    } else if th.Committed? {
      CommittedExplains(clock, th, base, run, now);
    } else if th.Loading? {
      LoadExplains(clock, th, base, run, now);
    } else {
      StartExplains(clock, th, base, run, now);
    }
  }

  lemma Workers<T>(th: Thread<T>)
    requires HasToken(th) && !th.Rechecking? && !th.Locking? && !th.Draining? && !th.Writing? && !th.Releasing?
    ensures th.Admitted? || th.Fetched? || th.Numbered? || th.Announcing? || th.Announced? || th.Loading?
            || th.Committed? || th.Finished?
  {
  }

  lemma StartExplains<T>(clock: nat -> Time, th: Thread<T>, base: Run<T>, run: Run<T>, now: nat)
    requires th.Admitted? || th.Fetched? || th.Numbered? || th.Announcing? || th.Announced?
    requires Explains(clock, th, base, run)
    ensures var moved := Move(clock, th, run, now);
      HasToken(moved.thread) && Explains(clock, moved.thread, base, moved.run)
  {
    hide OutcomeOf, Applicable, Commit, ApplyOf, InvalidReason, LifecycleStateOf, StartedEvent;
    if th.Admitted? && th.op.ApplyOp? {
      ApplicableIgnoresId(th.op.result, NextId(base.m.nextId));
    }
  }

  lemma LoadExplains<T>(clock: nat -> Time, th: Thread<T>, base: Run<T>, run: Run<T>, now: nat)
    requires th.Loading? && Explains(clock, th, base, run)
    ensures var moved := Move(clock, th, run, now);
      HasToken(moved.thread) && Explains(clock, moved.thread, base, moved.run)
  {
    hide OutcomeOf, Applicable, Announce, Begin;
    OutcomeSound(clock, th.op, th.t);
    ApplicableIgnoresId(OutcomeOf(clock, th.op, th.t).result, th.id);
  }

  lemma CommittedExplains<T>(clock: nat -> Time, th: Thread<T>, base: Run<T>, run: Run<T>, now: nat)
    requires th.Committed? && Explains(clock, th, base, run)
    ensures var moved := Move(clock, th, run, now);
      HasToken(moved.thread) && Explains(clock, moved.thread, base, moved.run)
  {
    hide Applicable, Commit, ApplyOf, Emit, CommitResult;
    var t' := th.t.(finishedAt := now);
    assert ReadyRun(clock, base, th.op, th.t) == ReadyRun(clock, base, th.op, t');
    assert ResultOf(clock, base, th.op, th.t) == ResultOf(clock, base, th.op, t');
  }

  lemma FinishedExplains<T>(clock: nat -> Time, th: Thread<T>, base: Run<T>, run: Run<T>, now: nat)
    requires th.Finished? && Explains(clock, th, base, run)
    ensures var moved := Move(clock, th, run, now);
      HasToken(moved.thread) && Explains(clock, moved.thread, base, moved.run)
  {
    hide Applicable, ApplyOf, FinishedRun, ReadyRun, ResultOf, OutcomeOf, EmitApplied, Perform;
    var t' := th.t.(publishedAt := now);
    PublishIsLast(clock, base, th.op, th.t, now);
    PerformFromReady(clock, base, th.op, t');
  }

  lemma PublishIsLast<T>(clock: nat -> Time, base: Run<T>, op: Op<T>, t: Moments, now: nat)
    ensures var t' := t.(publishedAt := now);
      && ReadyRun(clock, base, op, t') == ReadyRun(clock, base, op, t)
      && ResultOf(clock, base, op, t') == ResultOf(clock, base, op, t)
      && ErrOf(clock, op, t') == ErrOf(clock, op, t)
      && FinishedRun(clock, base, op, t') == FinishedRun(clock, base, op, t)
  {
    hide LoadOutcome, SourceOutcome, CommitResult, ApplyOf, Emit;
  }

  /** A whole operation, from the point where its result is ready to be applied. */
  lemma PerformFromReady<T>(clock: nat -> Time, base: Run<T>, op: Op<T>, t: Moments)
    requires Applicable(ResultOf(clock, base, op, t))
    ensures var result := ResultOf(clock, base, op, t);
      var apply := ApplyOf(ReadyRun(clock, base, op, t).m, result, clock(t.committedAt));
      Perform(clock, base, op, t) ==
      (EmitApplied(FinishedRun(clock, base, op, t), result.attempt, apply, clock(t.publishedAt)),
       if op.ApplyOp? then Applied(apply, None) else Managed(result, apply, ErrOf(clock, op, t)))
  {
    hide OutcomeOf, InvalidReason, Commit, ApplyOf, Emit, EmitApplied, CommitResult;
    ReadyNextId(clock, base, op, t);
    if op.ApplyOp? {
      ApplicableIgnoresId(op.result, NextId(base.m.nextId));
    }
  }

  lemma ReadyNextId<T>(clock: nat -> Time, base: Run<T>, op: Op<T>, t: Moments)
    ensures ReadyRun(clock, base, op, t).m.nextId == NextId(base.m.nextId)
  {
  }

  lemma WriteExplains<T>(clock: nat -> Time, th: Thread<T>, base: Run<T>, run: Run<T>, now: nat)
    requires th.Writing? && Explains(clock, th, base, run)
    ensures var moved := WriteStep(clock, th, run, now);
      && (if th.phase < 4 then moved.thread.Writing? else moved.thread.Committed?)
      && Explains(clock, moved.thread, base, moved.run)
  {
    hide Applicable, Remember, LoadOutcome, SourceOutcome, LifecycleStateOf, Emit;
    var t' := th.t.(committedAt := now);
    if th.phase == 0 {
      assert ReadyRun(clock, base, th.op, th.t) == ReadyRun(clock, base, th.op, t');
      assert ResultOf(clock, base, th.op, th.t) == ResultOf(clock, base, th.op, t');
    }
  }

  // ---------------------------------------------------------------- the invariant

  function Holders<T>(threads: map<nat, Thread<T>>): set<nat> {
    set t | t in threads && HasToken(threads[t])
  }

  /** The channel holds as many tokens as there are goroutines between their send and their receive, and
      never more than one. */
  ghost predicate TokenInv<T>(threads: map<nat, Thread<T>>, held: nat) {
    && held == |Holders(threads)| <= 1
    && forall t, u | t in Holders(threads) && u in Holders(threads) :: t == u
  }

  ghost predicate LockInv<T>(s: System<T>) {
    && (forall t | t in s.threads :: s.threads[t].Draining? <==> s.lock == Requested(t))
    && (forall t | t in s.threads :: s.threads[t].Writing? <==> s.lock == Held(t))
    && (!s.lock.Unlocked? ==> s.lock.tid in s.threads)
    && (s.lock.Held? ==> s.readers == {})
    && (forall t :: t in s.readers <==> t in s.threads && s.threads[t].Viewing?)
  }

  /** With the token free, the memory is the sequential replay of the completed operations; otherwise it is
      that replay plus what the holder has done. */
  ghost predicate RunInv<T>(clock: nat -> Time, limit: int, s: System<T>) {
    var base := Replay(clock, limit, s.entries);
    && (Holders(s.threads) == {} ==> s.run == base)
    && forall t | t in Holders(s.threads) :: Explains(clock, s.threads[t], base, s.run)
  }

  predicate Inside<T>(th: Thread<T>) {
    HasToken(th) && !th.Rechecking?
  }

  ghost predicate OrderInv<T>(s: System<T>) {
    && |s.completions| == |s.entries|
    && (forall t | t in s.threads && Inside(s.threads[t]) :: s.admissions == s.completions + [t])
    && ((forall t | t in s.threads :: !Inside(s.threads[t])) ==> s.admissions == s.completions)
  }

  /** Only the caller's own context turns it away, with the context's error. */
  predicate CauseOk<T>(th: Thread<T>) {
    th.Turned? ==> th.op.ctx.doneFrom.Some? && th.cause == th.op.ctx.cause
  }

  /** A returned call is the completed operation at its place, and got the reply of the sequential replay. */
  ghost predicate ReplyOk<T>(clock: nat -> Time, limit: int, entries: seq<Entry<T>>, completions: seq<nat>,
                             tid: nat, th: Thread<T>)
  {
    && CauseOk(th)
    && (th.Returned? ==>
      && th.place < |entries| && th.place < |completions|
      && entries[th.place] == Entry(th.op, th.t) && completions[th.place] == tid
      && th.reply == Perform(clock, Replay(clock, limit, entries[..th.place]), th.op, th.t).1)
  }

  /** Completed calls and returned goroutines are the same, one for one. */
  ghost predicate ReplyInv<T>(clock: nat -> Time, limit: int, s: System<T>) {
    && (forall t | t in s.threads :: ReplyOk(clock, limit, s.entries, s.completions, t, s.threads[t]))
    && (forall i | 0 <= i < |s.completions| ::
          && s.completions[i] in s.threads
          && s.threads[s.completions[i]].Returned?
          && s.threads[s.completions[i]].place == i)
  }

  /** Outside the write critical section the readable fields are those of the accepted history. */
  ghost predicate Settled<T>(limit: int, run: Run<T>) {
    var called := StateOf(limit, run.accepted);
    ViewOf(run.m) == ViewOf(called) && run.m.current == called.current
  }

  /** All of what was seen is the state after one prefix of the accepted results. */
  ghost predicate SeenOk<T>(limit: int, accepted: seq<Accepted<T>>, seen: Observed<T>) {
    && seen.upTo <= |accepted|
    && var called := StateOf(limit, accepted[..seen.upTo]);
       seen.view == ViewOf(called) && seen.snapshot == called.current
  }

  /** Every view a reader has returned is the view after some prefix of the accepted results, all of it after
      the same prefix, and later views come from later prefixes. */
  ghost predicate ViewsOk<T>(limit: int, accepted: seq<Accepted<T>>, views: seq<Observed<T>>) {
    && (forall i | 0 <= i < |views| :: SeenOk(limit, accepted, views[i]))
    && (forall i, j | 0 <= i < j < |views| :: views[i].upTo <= views[j].upTo)
  }

  ghost predicate ReaderOk<T>(limit: int, run: Run<T>, th: Thread<T>) {
    match th
    case Resting(views) => ViewsOk(limit, run.accepted, views)
    case Viewing(views, status, current, attempts) =>
      && ViewsOk(limit, run.accepted, views)
      && (status.Some? ==> status.value == StatusOf(run.m))
      && (current.Some? ==> current.value == run.m.current)
      && (attempts.Some? ==> attempts.value == run.m.history)
    case _ => true
  }

  ghost predicate ReaderInv<T>(limit: int, s: System<T>) {
    && (!s.lock.Held? ==> Settled(limit, s.run))
    && forall t | t in s.threads :: ReaderOk(limit, s.run, s.threads[t])
  }

  ghost predicate Inv<T>(clock: nat -> Time, limit: int, s: System<T>) {
    && TokenInv(s.threads, s.held)
    && LockInv(s)
    && RunInv(clock, limit, s)
    && OrderInv(s)
    && ReplyInv(clock, limit, s)
    && ReaderInv(limit, s)
  }

  // ---------------------------------------------------------------- the token

  lemma HoldersPut<T>(threads: map<nat, Thread<T>>, tid: nat, th: Thread<T>)
    ensures Holders(threads[tid := th]) ==
            if HasToken(th) then Holders(threads) + {tid} else Holders(threads) - {tid}
  {
  }

  lemma TokenStep<T>(threads: map<nat, Thread<T>>, held: nat, tid: nat, th: Thread<T>, held': nat)
    requires TokenInv(threads, held)
    requires var had := tid in threads && HasToken(threads[tid]);
      || (had == HasToken(th) && held' == held)
      || (!had && HasToken(th) && held == 0 && held' == 1)
      || (had && !HasToken(th) && held' == held - 1)
    ensures TokenInv(threads[tid := th], held')
  {
    HoldersPut(threads, tid, th);
    var before, after := Holders(threads), Holders(threads[tid := th]);
    if tid in before {
      assert before == {tid};
    } else if HasToken(th) {
      assert before == {};
      assert after == {tid};
    } else {
      assert after == before;
    }
  }

  lemma SoleHolder<T>(threads: map<nat, Thread<T>>, held: nat, tid: nat)
    requires TokenInv(threads, held) && tid in threads && HasToken(threads[tid])
    ensures held == 1 && Holders(threads) == {tid}
    ensures forall t | t in threads :: HasToken(threads[t]) ==> t == tid
  {
    assert tid in Holders(threads);
    assert Holders(threads) == {tid};
    forall t | t in threads && HasToken(threads[t]) ensures t == tid {
      assert t in Holders(threads);
    }
  }

  lemma NoHolder<T>(threads: map<nat, Thread<T>>, held: nat)
    requires TokenInv(threads, held) && held == 0
    ensures Holders(threads) == {}
    ensures forall t | t in threads :: !HasToken(threads[t])
  {
    forall t | t in threads ensures !HasToken(threads[t]) {
      assert t !in Holders(threads);
    }
  }

  // ---------------------------------------------------------------- steps keep the replay

  ghost predicate Serial<T>(clock: nat -> Time, limit: int, s: System<T>) {
    TokenInv(s.threads, s.held) && RunInv(clock, limit, s) && OrderInv(s) && ReplyInv(clock, limit, s)
  }

  /** The goroutine `tid` moved to `th`, and completed no call. */
  ghost predicate Moves<T>(s: System<T>, s': System<T>, tid: nat, th: Thread<T>) {
    && s'.threads == s.threads[tid := th]
    && s'.entries == s.entries && s'.completions == s.completions
    && !th.Returned? && CauseOk(th)
    && (tid in s.threads ==> !s.threads[tid].Returned?)
  }

  lemma ReplyKept<T>(clock: nat -> Time, limit: int, s: System<T>, s': System<T>, tid: nat, th: Thread<T>)
    requires ReplyInv(clock, limit, s) && Moves(s, s', tid, th)
    ensures ReplyInv(clock, limit, s')
  {
    hide Perform, Replay;
  }

  /** A step outside the token: nothing shared changes. */
  lemma OutsideStep<T>(clock: nat -> Time, limit: int, s: System<T>, s': System<T>, tid: nat, th: Thread<T>)
    requires Serial(clock, limit, s) && Moves(s, s', tid, th)
    requires !HasToken(th) && (tid in s.threads ==> !HasToken(s.threads[tid]))
    requires s'.held == s.held && s'.run == s.run && s'.admissions == s.admissions
    ensures Serial(clock, limit, s')
  {
    hide Explains, Replay, ReplyInv;
    TokenStep(s.threads, s.held, tid, th, s'.held);
    HoldersPut(s.threads, tid, th);
    ReplyKept(clock, limit, s, s', tid, th);
    assert Holders(s'.threads) == Holders(s.threads);
    InsideKept(s, s', tid, th);
  }

  /** Without a goroutine past its admission, or with the same one, the orders still agree. */
  lemma InsideKept<T>(s: System<T>, s': System<T>, tid: nat, th: Thread<T>)
    requires OrderInv(s) && Moves(s, s', tid, th) && s'.admissions == s.admissions
    requires tid in s.threads && Inside(s.threads[tid]) <==> Inside(th)
    ensures OrderInv(s')
  {
    if forall t | t in s'.threads :: !Inside(s'.threads[t]) {
      forall t | t in s.threads ensures !Inside(s.threads[t]) {
        assert t in s'.threads;
        if t != tid {
          assert s'.threads[t] == s.threads[t];
        }
      }
    }
  }

  lemma AcquireStep<T>(clock: nat -> Time, limit: int, s: System<T>, s': System<T>, tid: nat, th: Thread<T>)
    requires Serial(clock, limit, s) && Moves(s, s', tid, th)
    requires th.Rechecking? && s.held == 0 && s'.held == 1
    requires s'.run == s.run && s'.admissions == s.admissions
    ensures Serial(clock, limit, s')
  {
    hide Replay, ReplyInv;
    NoHolder(s.threads, s.held);
    TokenStep(s.threads, s.held, tid, th, s'.held);
    HoldersPut(s.threads, tid, th);
    ReplyKept(clock, limit, s, s', tid, th);
    InsideKept(s, s', tid, th);
  }

  /** A step of the holder that keeps the token and explains what it wrote. */
  lemma {:induction false} HolderStep<T>(clock: nat -> Time, limit: int, s: System<T>, s': System<T>, tid: nat,
                                         th: Thread<T>)
    requires Serial(clock, limit, s) && Moves(s, s', tid, th)
    requires tid in s.threads && Inside(s.threads[tid]) && Inside(th)
    requires s'.held == s.held && s'.admissions == s.admissions
    requires Explains(clock, th, Replay(clock, limit, s.entries), s'.run)
    ensures Serial(clock, limit, s')
  {
    hide Replay, ReplyInv, Explains;
    SoleHolder(s.threads, s.held, tid);
    TokenStep(s.threads, s.held, tid, th, s'.held);
    HoldersPut(s.threads, tid, th);
    ReplyKept(clock, limit, s, s', tid, th);
    InsideKept(s, s', tid, th);
    assert Holders(s'.threads) == {tid};
  }

  /** The second check passes: the goroutine is admitted. */
  lemma {:induction false} AdmitStep<T>(clock: nat -> Time, limit: int, s: System<T>, s': System<T>, tid: nat,
                                        th: Thread<T>)
    requires Serial(clock, limit, s) && Moves(s, s', tid, th)
    requires tid in s.threads && s.threads[tid].Rechecking? && th.Admitted?
    requires s'.held == s.held && s'.run == s.run && s'.admissions == s.admissions + [tid]
    ensures Serial(clock, limit, s')
  {
    hide Replay, ReplyInv;
    SoleHolder(s.threads, s.held, tid);
    TokenStep(s.threads, s.held, tid, th, s'.held);
    HoldersPut(s.threads, tid, th);
    ReplyKept(clock, limit, s, s', tid, th);
    assert Holders(s'.threads) == {tid};
    assert s.admissions == s.completions;
  }

  /** The second check fails: the token goes back and nothing has happened. */
  lemma TurnAwayStep<T>(clock: nat -> Time, limit: int, s: System<T>, s': System<T>, tid: nat, th: Thread<T>)
    requires Serial(clock, limit, s) && Moves(s, s', tid, th)
    requires tid in s.threads && s.threads[tid].Rechecking? && th.Turned?
    requires s'.held == s.held - 1 && s'.run == s.run && s'.admissions == s.admissions
    ensures Serial(clock, limit, s')
  {
    hide Replay, ReplyInv;
    SoleHolder(s.threads, s.held, tid);
    TokenStep(s.threads, s.held, tid, th, s'.held);
    HoldersPut(s.threads, tid, th);
    ReplyKept(clock, limit, s, s', tid, th);
    InsideKept(s, s', tid, th);
    assert Holders(s'.threads) == {};
  }

  /** The holder returns: its operation is the next one of the replay. */
  lemma ReleaseStep<T>(clock: nat -> Time, limit: int, s: System<T>, s': System<T>, tid: nat)
    requires Serial(clock, limit, s)
    requires tid in s.threads && s.threads[tid].Releasing?
    requires var Releasing(op, t, reply) := s.threads[tid];
      && s'.threads == s.threads[tid := Returned(op, t, reply, |s.entries|)]
      && s'.entries == s.entries + [Entry(op, t)]
    requires s'.held == s.held - 1 && s'.run == s.run
    requires s'.admissions == s.admissions && s'.completions == s.completions + [tid]
    ensures Serial(clock, limit, s')
  {
    hide Perform;
    var th := s'.threads[tid];
    SoleHolder(s.threads, s.held, tid);
    TokenStep(s.threads, s.held, tid, th, s'.held);
    HoldersPut(s.threads, tid, th);
    assert Holders(s'.threads) == {};
    assert s'.entries[..|s.entries|] == s.entries;
    assert Explains(clock, s.threads[tid], Replay(clock, limit, s.entries), s.run);
    assert s'.run == Replay(clock, limit, s'.entries);
    ReplyExtends(clock, limit, s, s', tid);
  }

  lemma ReplyExtends<T>(clock: nat -> Time, limit: int, s: System<T>, s': System<T>, tid: nat)
    requires ReplyInv(clock, limit, s) && |s.completions| == |s.entries|
    requires tid in s.threads && !s.threads[tid].Returned?
    requires |s'.entries| == |s.entries| + 1 && s'.entries[..|s.entries|] == s.entries
    requires s'.completions == s.completions + [tid]
    requires tid in s'.threads && s'.threads == s.threads[tid := s'.threads[tid]]
    requires s'.threads[tid].Returned? && s'.threads[tid].place == |s.entries|
    requires ReplyOk(clock, limit, s'.entries, s'.completions, tid, s'.threads[tid])
    ensures ReplyInv(clock, limit, s')
  {
    hide Perform, Replay;
    forall t | t in s'.threads
      ensures ReplyOk(clock, limit, s'.entries, s'.completions, t, s'.threads[t])
    {
      if t != tid {
        var th := s.threads[t];
        assert ReplyOk(clock, limit, s.entries, s.completions, t, th);
        if th.Returned? {
          assert s'.entries[..th.place] == s.entries[..th.place];
        }
      }
    }
    forall i | 0 <= i < |s'.completions|
      ensures s'.completions[i] in s'.threads && s'.threads[s'.completions[i]].Returned?
      ensures s'.threads[s'.completions[i]].place == i
    {
      if i < |s.completions| {
        assert s.completions[i] != tid;
      }
    }
  }

  // ---------------------------------------------------------------- steps keep the locks and the readers

  ghost predicate Watched<T>(limit: int, s: System<T>) {
    LockInv(s) && ReaderInv(limit, s)
  }

  /** How a step of `tid` to `th` leaves the read/write lock: shared by readers, or one writer's. */
  ghost predicate LockMove<T>(s: System<T>, s': System<T>, tid: nat, th: Thread<T>) {
    var mine := !s.lock.Unlocked? && s.lock.tid == tid;
    var viewing := tid in s.threads && s.threads[tid].Viewing?;
    && s'.threads == s.threads[tid := th]
    && s'.lock == (if th.Draining? then Requested(tid) else if th.Writing? then Held(tid)
                   else if mine then Unlocked else s.lock)
    && s'.readers == (if th.Viewing? then s.readers + {tid} else if viewing then s.readers - {tid} else s.readers)
    && (th.Draining? ==> s.lock.Unlocked? || s.lock == Requested(tid))
    && (th.Writing? ==> s.lock == Held(tid) || (s.lock == Requested(tid) && s.readers == {}))
    && (th.Viewing? && !viewing ==> s.lock.Unlocked?)
  }

  /** The lock is a goroutine's own only while it waits for the readers or writes. */
  lemma NotMine<T>(s: System<T>, tid: nat)
    requires LockInv(s)
    requires tid in s.threads ==> !s.threads[tid].Draining? && !s.threads[tid].Writing?
    ensures s.lock.Unlocked? || s.lock.tid != tid
  {
  }

  lemma LockStep<T>(s: System<T>, s': System<T>, tid: nat, th: Thread<T>)
    requires LockInv(s) && LockMove(s, s', tid, th)
    ensures LockInv(s')
  {
  }

  /** Memory that readers cannot tell apart. */
  ghost predicate SameView<T>(r: Run<T>, r': Run<T>) {
    ViewOf(r.m) == ViewOf(r'.m) && r'.m.current == r.m.current && r'.accepted == r.accepted
  }

  /** Everything but a reader's or the writer's step. */
  lemma QuietStep<T>(limit: int, s: System<T>, s': System<T>, tid: nat, th: Thread<T>)
    requires Watched(limit, s) && LockMove(s, s', tid, th)
    requires SameView(s.run, s'.run)
    requires tid in s.threads ==> !s.threads[tid].Writing? && !s.threads[tid].Viewing?
    requires !th.Viewing? && (th.Resting? ==> th.views == [])
    ensures Watched(limit, s')
  {
    hide StateOf, LifecycleStateOf;
    LockStep(s, s', tid, th);
    forall t | t in s'.threads ensures ReaderOk(limit, s'.run, s'.threads[t]) {
      if t != tid {
        assert ReaderOk(limit, s.run, s.threads[t]);
      }
    }
  }

  /** A write inside the critical section, where nobody reads. */
  lemma WriterStep<T>(limit: int, s: System<T>, s': System<T>, tid: nat, th: Thread<T>)
    requires Watched(limit, s) && LockMove(s, s', tid, th)
    requires tid in s.threads && s.threads[tid].Writing? && !th.Viewing? && !th.Resting?
    requires s.run.accepted <= s'.run.accepted
    requires th.Writing? || Settled(limit, s'.run)
    ensures Watched(limit, s')
  {
    hide StateOf, StatusOf, RedactedIn;
    LockStep(s, s', tid, th);
    assert s.readers == {};
    forall t | t in s'.threads ensures ReaderOk(limit, s'.run, s'.threads[t]) {
      if t != tid {
        var other := s.threads[t];
        assert ReaderOk(limit, s.run, other);
        assert !other.Viewing?;
        if other.Resting? {
          ViewsKept(limit, s.run.accepted, s'.run.accepted, other.views);
        }
      }
    }
  }

  lemma ViewsKept<T>(limit: int, accepted: seq<Accepted<T>>, more: seq<Accepted<T>>, views: seq<Observed<T>>)
    requires ViewsOk(limit, accepted, views) && accepted <= more
    ensures ViewsOk(limit, more, views)
  {
    hide StateOf, ViewOf;
    forall i | 0 <= i < |views| ensures SeenOk(limit, more, views[i]) {
      assert SeenOk(limit, accepted, views[i]);
      assert more[..views[i].upTo] == accepted[..views[i].upTo];
    }
  }

  /** A reader takes the lock, copies a group of fields, or unlocks and returns its view. */
  lemma ReaderStep<T>(limit: int, s: System<T>, s': System<T>, tid: nat, th: Thread<T>)
    requires Watched(limit, s) && LockMove(s, s', tid, th) && s'.run == s.run
    requires tid in s.threads && !s.threads[tid].Writing? && !th.Writing?
    requires ReaderOk(limit, s.run, th)
    ensures Watched(limit, s')
  {
    hide StateOf, StatusOf, RedactedIn;
    LockStep(s, s', tid, th);
    forall t | t in s'.threads ensures ReaderOk(limit, s'.run, s'.threads[t]) {
      if t != tid {
        assert ReaderOk(limit, s.run, s.threads[t]);
      }
    }
  }

  /** The last read under one read lock completes a view of one prefix, no earlier than any before it. */
  lemma ViewCompletes<T>(limit: int, s: System<T>, tid: nat)
    requires Watched(limit, s) && tid in s.threads
    requires var th := s.threads[tid]; th.Viewing? && th.status.Some? && th.current.Some? && th.attempts.Some?
    ensures var th := s.threads[tid];
            var view := View(th.status.value, RedactedIn(th.current.value), th.attempts.value, s.run.m.lastApply);
      ViewsOk(limit, s.run.accepted, th.views + [Observed(view, th.current.value, |s.run.accepted|)])
  {
    hide StateOf, StatusOf, RedactedIn;
    assert tid in s.readers;
    assert !s.lock.Held?;
    assert ReaderOk(limit, s.run, s.threads[tid]);
    assert s.run.accepted[..|s.run.accepted|] == s.run.accepted;
  }

  lemma MoveShape<T>(clock: nat -> Time, th: Thread<T>, run: Run<T>, now: nat)
    requires Inside(th) && !th.Locking? && !th.Draining? && !th.Writing? && !th.Releasing?
    ensures var moved := Move(clock, th, run, now);
      && Inside(moved.thread) && !moved.thread.Draining? && !moved.thread.Writing?
      && SameView(run, moved.run)
  {
    hide OutcomeOf, Applicable, InvalidReason;
  }

  /** The commit leaves the state its accepted history calls for, so readers let in afterwards see it. */
  lemma {:induction false} CommitSettles<T>(clock: nat -> Time, limit: int, entries: seq<Entry<T>>, th: Thread<T>,
                                            run: Run<T>)
    requires th.Committed? && Explains(clock, th, Replay(clock, limit, entries), run)
    ensures Settled(limit, run)
  {
    hide Replay, Commit, ApplyOf, Chain, Applicable, StateOf, OutcomeOf, ViewOf, Emit;
    var base := Replay(clock, limit, entries);
    var at := clock(th.t.committedAt);
    ReplayReflects(clock, limit, entries);
    ReadyNextId(clock, base, th.op, th.t);
    ReadyOnlyNumbers(clock, base, th.op, th.t);
    ApplyDescribes(base.m, NextId(base.m.nextId), th.result, at);
    var a := Accepted(th.op.ApplyOp?, th.result, th.apply);
    AppliedAtIs(base.m, th.result, at);
    CommitReflects(base.m, limit, base.accepted, a);
  }

  lemma AppliedAtIs<T>(m: State<T>, result: LoadResult<T>, at: Time)
    ensures ApplyOf(m, result, at).appliedAt == at
  {
  }

  lemma ReadyOnlyNumbers<T>(clock: nat -> Time, base: Run<T>, op: Op<T>, t: Moments)
    ensures var ready := ReadyRun(clock, base, op, t);
      && ready.m == base.m.(nextId := NextId(base.m.nextId))
      && ready.accepted == base.accepted
  {
  }

  // ---------------------------------------------------------------- every action keeps the invariant

  lemma InitialInv<T>(clock: nat -> Time, limit: int)
    ensures Inv(clock, limit, Initial<T>(limit))
  {
    assert Records<T>([]) == [];
    assert Holders<T>(map[]) == {};
  }

  /** A step of a goroutine that waits for the token, or is turned away. */
  lemma EntryStepKeeps<T>(clock: nat -> Time, limit: int, s: System<T>, tid: nat, preferDone: bool, delay: nat)
    requires Inv(clock, limit, s) && tid in s.threads
    requires var th := s.threads[tid]; th.Entering? || th.Selecting? || th.Rechecking?
    ensures Inv(clock, limit, StepThread(clock, s, tid, s.threads[tid], preferDone, delay))
  {
    hide TokenInv, LockInv, RunInv, OrderInv, ReplyInv, ReaderInv, Settled, StatusOf;
    var th := s.threads[tid];
    var s' := StepThread(clock, s, tid, th, preferDone, delay);
    Ticks(clock, limit, s, s'.now);
    if th.Rechecking? {
      SoleHolder(s.threads, s.held, tid);
    }
    if s' != s.(now := s'.now) {
      var th' := s'.threads[tid];
      match th' {
        case Rechecking(_) => AcquireStep(clock, limit, s, s', tid, th');
        case Admitted(_, _) => AdmitStep(clock, limit, s, s', tid, th');
        case _ => if th.Rechecking? { TurnAwayStep(clock, limit, s, s', tid, th'); }
                  else { OutsideStep(clock, limit, s, s', tid, th'); }
      }
      NotMine(s, tid);
      QuietStep(limit, s, s', tid, th');
    }
  }

  lemma Ticks<T>(clock: nat -> Time, limit: int, s: System<T>, now: nat)
    requires Inv(clock, limit, s)
    ensures Inv(clock, limit, s.(now := now))
  {
    hide Explains, Replay, ReplyOk, ReaderOk, Settled;
  }

  /** A step of the holder that takes no lock, or only reads the state under one. */
  lemma WorkStepKeeps<T>(clock: nat -> Time, limit: int, s: System<T>, tid: nat, preferDone: bool, delay: nat)
    requires Inv(clock, limit, s) && tid in s.threads
    requires var th := s.threads[tid]; Inside(th) && !th.Locking? && !th.Draining? && !th.Writing? && !th.Releasing?
    ensures Inv(clock, limit, StepThread(clock, s, tid, s.threads[tid], preferDone, delay))
  {
    hide TokenInv, LockInv, OrderInv, ReplyInv, ReaderInv, Settled, SameView, StatusOf, Move, Explains, Replay;
    var th := s.threads[tid];
    var s' := StepThread(clock, s, tid, th, preferDone, delay);
    Ticks(clock, limit, s, s'.now);
    if s' != s.(now := s'.now) {
      var base := Replay(clock, limit, s.entries);
      assert tid in Holders(s.threads);
      MoveExplains(clock, th, base, s.run, s.now);
      MoveShape(clock, th, s.run, s.now);
      HolderStep(clock, limit, s, s', tid, s'.threads[tid]);
      NotMine(s, tid);
      QuietStep(limit, s, s', tid, s'.threads[tid]);
    }
  }

  /** The writer's steps: lock, one group of writes at a time, unlock. */
  lemma WriteStepKeeps<T>(clock: nat -> Time, limit: int, s: System<T>, tid: nat, preferDone: bool, delay: nat)
    requires Inv(clock, limit, s) && tid in s.threads
    requires s.threads[tid].Writing?
    ensures Inv(clock, limit, StepThread(clock, s, tid, s.threads[tid], preferDone, delay))
  {
    hide TokenInv, OrderInv, ReplyInv, ReaderInv, Settled, StatusOf, WriteStep, Explains, Replay, Emit;
    var th := s.threads[tid];
    var s' := StepThread(clock, s, tid, th, preferDone, delay);
    var base := Replay(clock, limit, s.entries);
    assert tid in Holders(s.threads);
    assert Explains(clock, th, base, s.run);
    WriteExplains(clock, th, base, s.run, s.now);
    WriteOnlyAppends(clock, th, s.run, s.now);
    HolderStep(clock, limit, s, s', tid, s'.threads[tid]);
    if th.phase >= 4 {
      CommitSettles(clock, limit, s.entries, s'.threads[tid], s'.run);
    }
    PhaseBound(clock, th, base, s.run);
    WriterStep(limit, s, s', tid, s'.threads[tid]);
  }

  lemma PhaseBound<T>(clock: nat -> Time, th: Thread<T>, base: Run<T>, run: Run<T>)
    requires th.Writing? && Explains(clock, th, base, run)
    ensures th.phase <= 4
  {
  }

  lemma WriteOnlyAppends<T>(clock: nat -> Time, th: Thread<T>, run: Run<T>, now: nat)
    requires th.Writing?
    ensures run.accepted <= WriteStep(clock, th, run, now).run.accepted
  {
  }

  lemma LockExplains<T>(clock: nat -> Time, th: Thread<T>, base: Run<T>, run: Run<T>)
    requires Explains(clock, th, base, run)
    ensures th.Locking? ==> Explains(clock, Draining(th.op, th.t, th.result, th.err), base, run)
    ensures th.Draining? ==> Explains(clock, Writing(th.op, th.t, th.result, th.err, 0, NO_APPLY), base, run)
  {
    hide HasResult, ReadyRun;
  }

  /** Asking for the write lock, and getting it once the readers have left. */
  lemma LockKeeps<T>(clock: nat -> Time, limit: int, s: System<T>, tid: nat, preferDone: bool, delay: nat)
    requires Inv(clock, limit, s) && tid in s.threads
    requires s.threads[tid].Locking? || s.threads[tid].Draining?
    ensures Inv(clock, limit, StepThread(clock, s, tid, s.threads[tid], preferDone, delay))
  {
    hide TokenInv, OrderInv, ReplyInv, ReaderInv, Settled, StatusOf, Replay, Explains;
    var th := s.threads[tid];
    var s' := StepThread(clock, s, tid, th, preferDone, delay);
    if (th.Locking? && !s.lock.Unlocked?) || (th.Draining? && s.readers != {}) {
      Ticks(clock, limit, s, s'.now);
    } else {
      var base := Replay(clock, limit, s.entries);
      assert tid in Holders(s.threads);
      LockExplains(clock, th, base, s.run);
      HolderStep(clock, limit, s, s', tid, s'.threads[tid]);
      QuietStep(limit, s, s', tid, s'.threads[tid]);
    }
  }

  /** Giving the token back, with the reply. */
  lemma ReleaseKeeps<T>(clock: nat -> Time, limit: int, s: System<T>, tid: nat, preferDone: bool, delay: nat)
    requires Inv(clock, limit, s) && tid in s.threads
    requires s.threads[tid].Releasing?
    ensures Inv(clock, limit, StepThread(clock, s, tid, s.threads[tid], preferDone, delay))
  {
    hide TokenInv, LockInv, RunInv, OrderInv, ReplyInv, ReaderInv, Settled, StatusOf;
    var s' := StepThread(clock, s, tid, s.threads[tid], preferDone, delay);
    if s.held == 0 {
      Ticks(clock, limit, s, s'.now);
    } else {
      ReleaseStep(clock, limit, s, s', tid);
      NotMine(s, tid);
      QuietStep(limit, s, s', tid, s'.threads[tid]);
    }
  }

  lemma ReadStepKeeps<T>(clock: nat -> Time, limit: int, s: System<T>, tid: nat, preferDone: bool, delay: nat)
    requires Inv(clock, limit, s) && tid in s.threads
    requires s.threads[tid].Resting? || s.threads[tid].Viewing?
    ensures Inv(clock, limit, StepThread(clock, s, tid, s.threads[tid], preferDone, delay))
  {
    hide TokenInv, LockInv, RunInv, OrderInv, ReplyInv, Settled, StatusOf, RedactedIn, ViewsOk;
    var th := s.threads[tid];
    var s' := StepThread(clock, s, tid, th, preferDone, delay);
    Ticks(clock, limit, s, s'.now);
    if s' != s.(now := s'.now) {
      var th' := s'.threads[tid];
      assert ReaderOk(limit, s.run, th);
      if th'.Resting? {
        ViewCompletes(limit, s, tid);
      }
      if th.Viewing? {
        ReaderIsListed(s, tid);
      }
      OutsideStep(clock, limit, s, s', tid, th');
      assert ReaderOk(limit, s.run, th');
      NotMine(s, tid);
      assert LockMove(s, s', tid, th');
      ReaderStep(limit, s, s', tid, th');
    }
  }

  lemma ReaderIsListed<T>(s: System<T>, tid: nat)
    requires LockInv(s) && tid in s.threads && s.threads[tid].Viewing?
    ensures s.readers + {tid} == s.readers
  {
    assert tid in s.readers;
  }

  lemma ActKeeps<T>(clock: nat -> Time, limit: int, s: System<T>, a: Action<T>)
    requires Inv(clock, limit, s)
    ensures Inv(clock, limit, Act(clock, s, a))
  {
    hide TokenInv, LockInv, RunInv, OrderInv, ReplyInv, ReaderInv, Settled;
    var s' := Act(clock, s, a);
    match a
    case Call(tid, op) =>
      if tid !in s.threads {
        OutsideStep(clock, limit, s, s', tid, Entering(op));
        NotMine(s, tid);
        QuietStep(limit, s, s', tid, Entering(op));
      }
    case Watch(tid) =>
      if tid !in s.threads {
        OutsideStep(clock, limit, s, s', tid, Resting([]));
        NotMine(s, tid);
        QuietStep(limit, s, s', tid, Resting([]));
      }
    case Step(tid, preferDone, delay) =>
      if tid in s.threads {
        StepKeeps(clock, limit, s, tid, preferDone, delay);
      }
  }

  lemma StepKeeps<T>(clock: nat -> Time, limit: int, s: System<T>, tid: nat, preferDone: bool, delay: nat)
    requires Inv(clock, limit, s) && tid in s.threads
    ensures Inv(clock, limit, StepThread(clock, s, tid, s.threads[tid], preferDone, delay))
  {
    hide Inv, Put;
    match s.threads[tid]
    case Entering(_) | Selecting(_) | Rechecking(_) => EntryStepKeeps(clock, limit, s, tid, preferDone, delay);
    case Resting(_) | Viewing(_, _, _, _) => ReadStepKeeps(clock, limit, s, tid, preferDone, delay);
    case Locking(_, _, _, _) | Draining(_, _, _, _) => LockKeeps(clock, limit, s, tid, preferDone, delay);
    case Releasing(_, _, _) => ReleaseKeeps(clock, limit, s, tid, preferDone, delay);
    case Writing(_, _, _, _, _, _) => WriteStepKeeps(clock, limit, s, tid, preferDone, delay);
    case Turned(_, _) | Returned(_, _, _, _) => DoneStaysDone(clock, limit, s, tid, preferDone, delay);
    case _ => WorkStepKeeps(clock, limit, s, tid, preferDone, delay);
  }

  lemma DoneStaysDone<T>(clock: nat -> Time, limit: int, s: System<T>, tid: nat, preferDone: bool, delay: nat)
    requires Inv(clock, limit, s) && tid in s.threads
    requires s.threads[tid].Turned? || s.threads[tid].Returned?
    ensures var s' := StepThread(clock, s, tid, s.threads[tid], preferDone, delay);
      Inv(clock, limit, s') && s' == s.(now := s'.now)
  {
    hide Inv;
    var s' := StepThread(clock, s, tid, s.threads[tid], preferDone, delay);
    assert s.threads[tid := s.threads[tid]] == s.threads;
    Ticks(clock, limit, s, s'.now);
  }

  /** Whatever the interleaving, the invariant holds. */
  lemma {:induction false} ExecKeeps<T>(clock: nat -> Time, limit: int, actions: seq<Action<T>>)
    ensures Inv(clock, limit, Exec(clock, limit, actions))
    decreases |actions|
  {
    hide Inv, Act;
    if actions == [] {
      InitialInv<T>(clock, limit);
    } else {
      var n := |actions| - 1;
      ExecKeeps(clock, limit, actions[..n]);
      ActKeeps(clock, limit, Exec(clock, limit, actions[..n]), actions[n]);
    }
  }
}
