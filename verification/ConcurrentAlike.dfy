/** Error texts and panic payloads stay inside the calls that met them, whatever else runs beside them: two
    concurrent runs that differ only in those go through the same states, events and views. */
module ConcurrentAlike {
  import opened Core
  import opened Errors
  import opened LoadLaws
  import opened Lifecycle
  import opened RunLaws
  import opened EventLaws
  import opened Views
  import opened Concurrent

  ghost predicate AlikeErrs(a: Option<Error>, b: Option<Error>) {
    (a.Some? <==> b.Some?) && (a.Some? ==> SameClass(a.value, b.value))
  }

  /** `Apply` has no errors of its own but the validator's. */
  ghost predicate AlikeErr<T>(op: Op<T>, a: Option<Error>, b: Option<Error>) {
    if op.ApplyOp? then a == b else AlikeErrs(a, b)
  }

  ghost predicate AlikeReplies<T>(a: Reply<T>, b: Reply<T>) {
    match (a, b)
    case (Managed(result, apply, err), Managed(result', apply', err')) =>
      result == result' && apply == apply' && AlikeErrs(err, err')
    case _ => a == b
  }

  /** The same control point with the same data, but for error texts in the operation and its outcome. */
  ghost predicate AlikeThreads<T(!new)>(a: Thread<T>, b: Thread<T>) {
    match (a, b)
    case (Entering(x), Entering(y)) => AlikeOps(x, y)
    case (Selecting(x), Selecting(y)) => AlikeOps(x, y)
    case (Rechecking(x), Rechecking(y)) => AlikeOps(x, y)
    case (Turned(x, c), Turned(y, d)) => AlikeOps(x, y) && c == d
    case (Admitted(x, t), Admitted(y, u)) => AlikeOps(x, y) && t == u
    case (Fetched(x, t), Fetched(y, u)) => AlikeOps(x, y) && t == u
    case (Numbered(x, t, i), Numbered(y, u, j)) => AlikeOps(x, y) && t == u && i == j
    case (Announcing(x, t, i, m), Announcing(y, u, j, n)) => AlikeOps(x, y) && t == u && i == j && m == n
    case (Announced(x, t, i), Announced(y, u, j)) => AlikeOps(x, y) && t == u && i == j
    case (Loading(x, t, i), Loading(y, u, j)) => AlikeOps(x, y) && t == u && i == j
    case (Locking(x, t, q, e), Locking(y, u, r, f)) => AlikeOps(x, y) && t == u && q == r && AlikeErr(x, e, f)
    case (Draining(x, t, q, e), Draining(y, u, r, f)) => AlikeOps(x, y) && t == u && q == r && AlikeErr(x, e, f)
    case (Writing(x, t, q, e, i, m), Writing(y, u, r, f, j, n)) =>
      AlikeOps(x, y) && t == u && q == r && AlikeErr(x, e, f) && i == j && m == n
    case (Committed(x, t, q, e, m), Committed(y, u, r, f, n)) =>
      AlikeOps(x, y) && t == u && q == r && AlikeErr(x, e, f) && m == n
    case (Finished(x, t, q, e, m), Finished(y, u, r, f, n)) =>
      AlikeOps(x, y) && t == u && q == r && m == n && AlikeErr(x, e, f)
    case (Releasing(x, t, q), Releasing(y, u, r)) => AlikeOps(x, y) && t == u && AlikeReplies(q, r)
    case (Returned(x, t, q, i), Returned(y, u, r, j)) => AlikeOps(x, y) && t == u && AlikeReplies(q, r) && i == j
    case _ => a == b && (a.Resting? || a.Viewing?)
  }

  ghost predicate AlikeActions<T(!new)>(a: Action<T>, b: Action<T>) {
    match (a, b)
    case (Call(t, x), Call(u, y)) => t == u && AlikeOps(x, y)
    case _ => a == b && !a.Call?
  }

  /** Everything shared is equal, and so is everything readers have seen. */
  ghost predicate AlikeSystems<T(!new)>(s: System<T>, s': System<T>) {
    && SameShared(s, s')
    && AlikeEntries(s.entries, s'.entries)
    && s.threads.Keys == s'.threads.Keys
    && (forall t | t in s.threads :: AlikeThreads(s.threads[t], s'.threads[t]))
  }

  lemma AlikeMoves<T(!new)>(clock: nat -> Time, a: Thread<T>, b: Thread<T>, run: Run<T>, now: nat)
    requires AlikeThreads(a, b)
    requires !a.Locking? && !a.Draining? && !a.Writing? && !a.Releasing?
    ensures var x, y := Move(clock, a, run, now), Move(clock, b, run, now);
      AlikeThreads(x.thread, y.thread) && x.run == y.run && x.now == y.now
  {
    hide AlikeOps, OutcomeOf, AnnouncedSource, InvalidReason, SameClass, LifecycleStateOf;
    if a.Loading? {
      AlikeLoadSteps(clock, a, b, run, now);
      return;
    }
    match a
    case Admitted(op, t) => AlikeParts(op, b.op, t);
    case Fetched(op, t) => AlikeParts(op, b.op, t);
    case Announcing(op, t, id, seen) => AlikeParts(op, b.op, t);
    case Announced(op, t, id) => AlikeParts(op, b.op, t);
    case Committed(op, t, result, err, apply) => AlikeParts(op, b.op, t);
    case Finished(op, t, result, err, apply) => AlikeParts(op, b.op, t);
    case _ =>
  }

  lemma AlikeLoadSteps<T(!new)>(clock: nat -> Time, a: Thread<T>, b: Thread<T>, run: Run<T>, now: nat)
    requires AlikeThreads(a, b) && a.Loading?
    ensures var x, y := Move(clock, a, run, now), Move(clock, b, run, now);
      AlikeThreads(x.thread, y.thread) && x.run == y.run && x.now == y.now
  {
    hide AlikeOps, OutcomeOf, SameClass, Applicable;
    AlikeParts(a.op, b.op, a.t);
    if !a.op.ApplyOp? {
      AlikeOutcomesOf(clock, a.op, b.op, a.t);
      OutcomeSound(clock, a.op, a.t);
      ApplicableIgnoresId(OutcomeOf(clock, a.op, a.t).result, a.id);
    }
  }

  /** What steps read of an operation, outside the load itself, has no error text in it. */
  lemma AlikeParts<T(!new)>(a: Op<T>, b: Op<T>, t: Moments)
    requires AlikeOps(a, b)
    ensures a.ctx == b.ctx && (a.ApplyOp? <==> b.ApplyOp?) && (a.LoadOp? <==> b.LoadOp?)
    ensures a.ApplyOp? ==> a.result == b.result
    ensures !a.ApplyOp? ==>
      && KindOf(a) == KindOf(b)
      && AnnouncedSource(a, t) == AnnouncedSource(b, t) && AnnouncedRevision(a) == AnnouncedRevision(b)
      && ReadCalls(a, t) == ReadCalls(b, t)
    ensures MetadataCalls(a) == MetadataCalls(b)
  {
    hide AlikePipelines;
    if !a.ApplyOp? {
      AlikeAnnouncements(a, b, t);
    }
  }

  lemma AlikeWrites<T(!new)>(clock: nat -> Time, a: Thread<T>, b: Thread<T>, run: Run<T>, now: nat)
    requires AlikeThreads(a, b) && a.Writing?
    ensures var x, y := WriteStep(clock, a, run, now), WriteStep(clock, b, run, now);
      AlikeThreads(x.thread, y.thread) && x.run == y.run && x.now == y.now
  {
    hide AlikeOps, SameClass, LifecycleStateOf, Remember;
    AlikeParts(a.op, b.op, a.t);
  }

  ghost predicate SameShared<T>(s: System<T>, s': System<T>) {
    && (s.now, s.held, s.lock, s.readers) == (s'.now, s'.held, s'.lock, s'.readers)
    && s.run == s'.run
    && s.admissions == s'.admissions && s.completions == s'.completions
  }

  ghost predicate AlikeEntries<T(!new)>(xs: seq<Entry<T>>, ys: seq<Entry<T>>) {
    |xs| == |ys| && forall i | 0 <= i < |xs| :: AlikeOps(xs[i].op, ys[i].op) && xs[i].t == ys[i].t
  }

  /** One goroutine went on alike, and everything shared is still the same. */
  lemma AlikeNext<T(!new)>(s: System<T>, s': System<T>, r: System<T>, r': System<T>, tid: nat, a: Thread<T>,
                           b: Thread<T>)
    requires AlikeSystems(s, s') && AlikeThreads(a, b) && SameShared(r, r')
    requires r.threads == s.threads[tid := a] && r'.threads == s'.threads[tid := b]
    requires AlikeEntries(r.entries, r'.entries)
    ensures AlikeSystems(r, r')
  {
    hide AlikeThreads, AlikeOps;
  }

  lemma AlikeWait<T(!new)>(s: System<T>, s': System<T>, now: nat)
    requires AlikeSystems(s, s')
    ensures AlikeSystems(s.(now := now), s'.(now := now))
  {
    hide AlikeThreads, AlikeOps;
  }

  lemma AlikeEntrySteps<T(!new)>(clock: nat -> Time, s: System<T>, s': System<T>, tid: nat, preferDone: bool,
                                 delay: nat)
    requires AlikeSystems(s, s') && tid in s.threads
    requires s.threads[tid].Entering? || s.threads[tid].Selecting? || s.threads[tid].Rechecking?
    ensures AlikeSystems(StepThread(clock, s, tid, s.threads[tid], preferDone, delay),
                         StepThread(clock, s', tid, s'.threads[tid], preferDone, delay))
  {
    hide AlikeOps, AlikeThreads;
    var a, b := s.threads[tid], s'.threads[tid];
    assert AlikeThreads(a, b);
    var r := StepThread(clock, s, tid, a, preferDone, delay);
    var r' := StepThread(clock, s', tid, b, preferDone, delay);
    WaitersAlike(a, b);
    AlikeParts(a.op, b.op, NO_MOMENTS);
    var e := a.op.ctx.Err(s.now);
    AlikeWaiters(a.op, b.op, if e.Some? then e.value else Canceled);
    if (a.Selecting? && e.None? && s.held >= 1) || (a.Rechecking? && e.Some? && s.held == 0) {
      AlikeWait(s, s', r.now);
    } else {
      AlikeNext(s, s', r, r', tid, r.threads[tid], r'.threads[tid]);
    }
  }

  lemma AlikeLockSteps<T(!new)>(clock: nat -> Time, s: System<T>, s': System<T>, tid: nat, preferDone: bool, delay: nat)
    requires AlikeSystems(s, s') && tid in s.threads
    requires s.threads[tid].Locking? || s.threads[tid].Draining? || s.threads[tid].Writing?
    ensures AlikeSystems(StepThread(clock, s, tid, s.threads[tid], preferDone, delay),
                         StepThread(clock, s', tid, s'.threads[tid], preferDone, delay))
  {
    hide AlikeOps, AlikeErr, WriteStep, AlikeThreads;
    var a, b := s.threads[tid], s'.threads[tid];
    assert AlikeThreads(a, b);
    var r := StepThread(clock, s, tid, a, preferDone, delay);
    var r' := StepThread(clock, s', tid, b, preferDone, delay);
    LockersAlike(a, b);
    if (a.Locking? && !s.lock.Unlocked?) || (a.Draining? && s.readers != {}) {
      AlikeWait(s, s', r.now);
    } else {
      if a.Writing? {
        AlikeWrites(clock, a, b, s.run, s.now);
      }
      AlikeNext(s, s', r, r', tid, r.threads[tid], r'.threads[tid]);
    }
  }

  lemma AlikeReleaseSteps<T(!new)>(clock: nat -> Time, s: System<T>, s': System<T>, tid: nat, preferDone: bool,
                                   delay: nat)
    requires AlikeSystems(s, s') && tid in s.threads
    requires s.threads[tid].Releasing?
    ensures AlikeSystems(StepThread(clock, s, tid, s.threads[tid], preferDone, delay),
                         StepThread(clock, s', tid, s'.threads[tid], preferDone, delay))
  {
    hide AlikeOps, AlikeReplies, AlikeThreads;
    var a, b := s.threads[tid], s'.threads[tid];
    assert AlikeThreads(a, b);
    var r := StepThread(clock, s, tid, a, preferDone, delay);
    var r' := StepThread(clock, s', tid, b, preferDone, delay);
    ReleasersAlike(a, b, |s.entries|);
    if s.held == 0 {
      AlikeWait(s, s', r.now);
    } else {
      AlikeNext(s, s', r, r', tid, r.threads[tid], r'.threads[tid]);
    }
  }

  lemma AlikeReadSteps<T(!new)>(clock: nat -> Time, s: System<T>, s': System<T>, tid: nat, preferDone: bool, delay: nat)
    requires AlikeSystems(s, s') && tid in s.threads
    requires s.threads[tid].Resting? || s.threads[tid].Viewing?
    ensures AlikeSystems(StepThread(clock, s, tid, s.threads[tid], preferDone, delay),
                         StepThread(clock, s', tid, s'.threads[tid], preferDone, delay))
  {
    hide AlikeOps, StatusOf, RedactedIn, AlikeThreads;
    var a, b := s.threads[tid], s'.threads[tid];
    assert AlikeThreads(a, b);
    var r := StepThread(clock, s, tid, a, preferDone, delay);
    var r' := StepThread(clock, s', tid, b, preferDone, delay);
    ReadersEqual(a, b);
    if a.Resting? && !s.lock.Unlocked? {
      AlikeWait(s, s', r.now);
    } else {
      AlikeReader(r.threads[tid]);
      AlikeNext(s, s', r, r', tid, r.threads[tid], r'.threads[tid]);
    }
  }

  lemma AlikeWorkSteps<T(!new)>(clock: nat -> Time, s: System<T>, s': System<T>, tid: nat, preferDone: bool, delay: nat)
    requires AlikeSystems(s, s') && tid in s.threads
    requires var a := s.threads[tid];
      (Inside(a) && !a.Locking? && !a.Draining? && !a.Writing? && !a.Releasing?) || a.Turned? || a.Returned?
    ensures AlikeSystems(StepThread(clock, s, tid, s.threads[tid], preferDone, delay),
                         StepThread(clock, s', tid, s'.threads[tid], preferDone, delay))
  {
    hide AlikeOps, AlikeErr, AlikeReplies, Move;
    var a, b := s.threads[tid], s'.threads[tid];
    assert AlikeThreads(a, b);
    var r := StepThread(clock, s, tid, a, preferDone, delay);
    var r' := StepThread(clock, s', tid, b, preferDone, delay);
    if a.Numbered? && !s.lock.Unlocked? {
      AlikeWait(s, s', r.now);
    } else {
      AlikeMoves(clock, a, b, s.run, s.now);
      AlikeNext(s, s', r, r', tid, r.threads[tid], r'.threads[tid]);
    }
  }

  lemma AlikeActs<T(!new)>(clock: nat -> Time, s: System<T>, s': System<T>, a: Action<T>, b: Action<T>)
    requires AlikeSystems(s, s') && AlikeActions(a, b)
    ensures AlikeSystems(Act(clock, s, a), Act(clock, s', b))
  {
    hide AlikeOps, StepThread, AlikeThreads;
    match a
    case Call(tid, op) =>
      if tid !in s.threads {
        AlikeWaiters(op, b.op, Canceled);
        AlikeNext(s, s', Act(clock, s, a), Act(clock, s', b), tid, Entering(op), Entering(b.op));
      }
    case Watch(tid) =>
      if tid !in s.threads {
        AlikeReader<T>(Resting([]));
        AlikeNext(s, s', Act(clock, s, a), Act(clock, s', b), tid, Resting([]), Resting([]));
      }
    case Step(tid, preferDone, delay) =>
      if tid in s.threads {
        hide AlikeSystems;
        match s.threads[tid]
        case Entering(_) | Selecting(_) | Rechecking(_) => AlikeEntrySteps(clock, s, s', tid, preferDone, delay);
        case Locking(_, _, _, _) | Draining(_, _, _, _) | Writing(_, _, _, _, _, _) =>
          AlikeLockSteps(clock, s, s', tid, preferDone, delay);
        case Releasing(_, _, _) => AlikeReleaseSteps(clock, s, s', tid, preferDone, delay);
        case Resting(_) | Viewing(_, _, _, _) => AlikeReadSteps(clock, s, s', tid, preferDone, delay);
        case _ => AlikeWorkSteps(clock, s, s', tid, preferDone, delay);
      }
  }

  lemma WaitersAlike<T(!new)>(a: Thread<T>, b: Thread<T>)
    requires AlikeThreads(a, b) && (a.Entering? || a.Selecting? || a.Rechecking?)
    ensures (a.Entering? <==> b.Entering?) && (a.Selecting? <==> b.Selecting?) && (a.Rechecking? <==> b.Rechecking?)
    ensures AlikeOps(a.op, b.op)
  {
    hide AlikeOps;
  }

  lemma AlikeWaiters<T(!new)>(a: Op<T>, b: Op<T>, cause: Error)
    requires AlikeOps(a, b)
    ensures AlikeThreads(Entering(a), Entering(b)) && AlikeThreads(Selecting(a), Selecting(b))
    ensures AlikeThreads(Rechecking(a), Rechecking(b)) && AlikeThreads(Admitted(a, NO_MOMENTS), Admitted(b, NO_MOMENTS))
    ensures AlikeThreads(Turned(a, cause), Turned(b, cause))
  {
    hide AlikeOps;
  }

  lemma LockersAlike<T(!new)>(a: Thread<T>, b: Thread<T>)
    requires AlikeThreads(a, b)
    ensures a.Locking? ==>
      && b.Locking?
      && AlikeThreads(Draining(a.op, a.t, a.result, a.err), Draining(b.op, b.t, b.result, b.err))
    ensures a.Draining? ==>
      && b.Draining?
      && AlikeThreads(Writing(a.op, a.t, a.result, a.err, 0, NO_APPLY),
                      Writing(b.op, b.t, b.result, b.err, 0, NO_APPLY))
    ensures a.Writing? ==> b.Writing? && a.phase == b.phase
  {
    hide AlikeOps, AlikeErr;
  }

  lemma ReleasersAlike<T(!new)>(a: Thread<T>, b: Thread<T>, place: nat)
    requires AlikeThreads(a, b) && a.Releasing?
    ensures b.Releasing? && AlikeOps(a.op, b.op) && a.t == b.t
    ensures AlikeThreads(Returned(a.op, a.t, a.reply, place), Returned(b.op, b.t, b.reply, place))
  {
    hide AlikeOps, AlikeReplies;
  }

  lemma ReadersEqual<T(!new)>(a: Thread<T>, b: Thread<T>)
    requires AlikeThreads(a, b) && (a.Resting? || a.Viewing?)
    ensures a == b
  {
    hide AlikeOps;
  }

  lemma AlikeReader<T(!new)>(a: Thread<T>)
    requires a.Resting? || a.Viewing?
    ensures AlikeThreads(a, a)
  {
    hide AlikeOps;
  }

  /** Two runs of any number of goroutines whose calls differ only in error text or panic payload: at every
      instant the manager, its log, the accepted results, the source calls, the order of operations and every
      reader's views are the same. */
  lemma {:induction false} ErrorTextStaysInside<T(!new)>(clock: nat -> Time, limit: int, xs: seq<Action<T>>,
                                                         ys: seq<Action<T>>)
    requires |xs| == |ys| && forall i | 0 <= i < |xs| :: AlikeActions(xs[i], ys[i])
    ensures AlikeSystems(Exec(clock, limit, xs), Exec(clock, limit, ys))
    decreases |xs|
  {
    hide Act, AlikeActions, AlikeThreads;
    if xs != [] {
      var n := |xs| - 1;
      ErrorTextStaysInside(clock, limit, xs[..n], ys[..n]);
      AlikeActs(clock, Exec(clock, limit, xs[..n]), Exec(clock, limit, ys[..n]), xs[n], ys[n]);
    }
  }
}
