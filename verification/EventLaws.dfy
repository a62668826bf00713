/** Readers of the event log: a protocol checker that also rebuilds the accepted results, the
    metric counters, and the comparison of runs that differ only in error text. */
module EventLaws {
  import opened Core
  import opened Errors
  import opened Pipelines
  import opened LoadLaws
  import opened Lifecycle
  import opened RunLaws
  import opened Views

  // ---------------------------------------------------------------- a reader that knows only the log

  /** Where a reader of the log is: between blocks, inside a managed load, or waiting for the
      `snapshot_applied` of a load that succeeded. `Broken` means the protocol was violated. */
  datatype Position = Idle | Loading(started: Event) | Publishing(finished: Event) | Broken

  /** Its position and what it has learned: the (attempt, apply) pairs, and the snapshot last applied. */
  datatype Reader = Reader(
    at: Position,
    seen: seq<(AttemptRecord, ApplyResult)>,
    applied: Option<SnapshotMetadata>
  )

  const FRESH_READER := Reader(Idle, [], None)

  function Read(r: Reader, e: Event): Reader {
    match (r.at, e.kind)
    case (Idle, LoadStarted) =>
      if e.attempt.None? && e.apply.None? then r.(at := Loading(e)) else r.(at := Broken)
    case (Idle, SnapshotApplied) =>
      if Complete(e) && e.apply.value.published then Publish(Learn(r, e), e) else r.(at := Broken)
    case (Loading(started), LoadFailed) =>
      if Complete(e) && e.attemptId == started.attemptId && !e.apply.value.published
      then Learn(r, e) else r.(at := Broken)
    case (Loading(started), LoadSucceeded) =>
      if Complete(e) && e.attemptId == started.attemptId && e.apply.value.published
      then Learn(r, e).(at := Publishing(e)) else r.(at := Broken)
    case (Publishing(finished), SnapshotApplied) =>
      if (e.attempt, e.apply, e.snapshot) == (finished.attempt, finished.apply, finished.snapshot)
      then Publish(r, e) else r.(at := Broken)
    case _ => r.(at := Broken)
  }

  predicate Complete(e: Event) {
    && e.attempt.Some? && e.apply.Some?
    && e.attempt.value.id == e.attemptId
    && e.apply.value.managerState == e.managerState
  }

  function Learn(r: Reader, e: Event): Reader
    requires Complete(e)
  {
    r.(at := Idle, seen := r.seen + [(e.attempt.value, e.apply.value)])
  }

  function Publish(r: Reader, e: Event): Reader {
    r.(at := Idle, applied := e.snapshot)
  }

  function ReadLog(r: Reader, log: seq<Emission>): Reader
    decreases |log|
  {
    if log == [] then r else ReadLog(Read(r, log[0].event), log[1..])
  }

  /** What an event log can show: everything but the failures that came through `Apply`. */
  predicate Visible<T>(a: Accepted<T>) {
    a.external ==> a.apply.published
  }

  function VisiblePairs<T>(accepted: seq<Accepted<T>>): seq<(AttemptRecord, ApplyResult)> {
    if accepted == [] then []
    else
      var last := accepted[|accepted| - 1];
      VisiblePairs(accepted[..|accepted| - 1]) + (if Visible(last) then [(last.result.attempt, last.apply)] else [])
  }

  function AllPairs<T>(accepted: seq<Accepted<T>>): seq<(AttemptRecord, ApplyResult)> {
    seq(|accepted|, i requires 0 <= i < |accepted| => (accepted[i].result.attempt, accepted[i].apply))
  }

  lemma {:induction false} ReadLogAppend(r: Reader, log: seq<Emission>, more: seq<Emission>)
    ensures ReadLog(r, log + more) == ReadLog(ReadLog(r, log), more)
    decreases |log|
  {
    if log == [] {
      assert log + more == more;
    } else {
      assert (log + more)[1..] == log[1..] + more;
      ReadLogAppend(Read(r, log[0].event), log[1..], more);
    }
  }

  lemma {:induction false} ReadThree(r: Reader, log: seq<Emission>)
    ensures |log| == 0 ==> ReadLog(r, log) == r
    ensures |log| == 1 ==> ReadLog(r, log) == Read(r, log[0].event)
    ensures |log| == 2 ==> ReadLog(r, log) == Read(Read(r, log[0].event), log[1].event)
    ensures |log| == 3 ==> ReadLog(r, log) == Read(Read(Read(r, log[0].event), log[1].event), log[2].event)
  {
    if |log| > 0 {
      var rest := log[1..];
      var r1 := Read(r, log[0].event);
      if |rest| > 0 {
        var r2 := Read(r1, rest[0].event);
        assert ReadLog(r1, rest) == ReadLog(r2, rest[1..]);
        if |rest| > 1 {
          assert ReadLog(r2, rest[1..]) == ReadLog(Read(r2, rest[1..][0].event), rest[1..][1..]);
        }
      }
    }
  }

  lemma {:induction false} BlockIsRead<T>(r: Reader, events: seq<Emission>, a: Accepted<T>, before: LifecycleState)
    requires r.at == Idle && IsBlock(events, a, before)
    requires Applicable(a.result) && a.apply.published == Publishes(a.result)
    requires a.apply.published ==> a.apply.current == MetadataOf(a.result.snapshot)
    ensures ReadLog(r, events) ==
            Reader(Idle,
                   if Visible(a) then r.seen + [(a.result.attempt, a.apply)] else r.seen,
                   if a.apply.published then a.apply.current else r.applied)
  {
    ReadThree(r, events);
  }

  /** The whole log is a sequence of uninterleaved blocks, and reading it gives back every accepted
      result except failures applied from outside, in order, and the current snapshot. */
  lemma {:induction false} LogIsRead<T>(clock: nat -> Time, limit: int, entries: seq<Entry<T>>)
    ensures var r := Replay(clock, limit, entries);
      ReadLog(FRESH_READER, r.log) == Reader(Idle, VisiblePairs(r.accepted), MetadataOf(r.m.current))
    decreases |entries|
  {
    hide Perform, IsBlock;
    if entries != [] {
      var n := |entries| - 1;
      var r := Replay(clock, limit, entries[..n]);
      LogIsRead(clock, limit, entries[..n]);
      var a, events := PerformIsOneBlock(clock, r, entries[n].op, entries[n].t);
      if !(entries[n].op.ApplyOp? && !Applicable(entries[n].op.result)) {
        ReadLogAppend(FRESH_READER, r.log, events);
        ApplyDescribes(r.m, NextId(r.m.nextId), a.result, a.apply.appliedAt);
        BlockIsRead(ReadLog(FRESH_READER, r.log), events, a, LifecycleStateOf(r.m));
        assert (r.accepted + [a])[..|r.accepted|] == r.accepted;
      }
    }
  }

  lemma {:induction false} VisibleCount<T>(accepted: seq<Accepted<T>>)
    ensures |VisiblePairs(accepted)| <= |accepted|
    ensures |VisiblePairs(accepted)| == |accepted| <==> forall a | a in accepted :: Visible(a)
    ensures (forall a | a in accepted :: Visible(a)) ==> VisiblePairs(accepted) == AllPairs(accepted)
    decreases |accepted|
  {
    if accepted != [] {
      var n := |accepted| - 1;
      VisibleCount(accepted[..n]);
      assert accepted == accepted[..n] + [accepted[n]];
      assert AllPairs(accepted) == AllPairs(accepted[..n]) + [(accepted[n].result.attempt, accepted[n].apply)];
    }
  }

  /** The latest of the attempts a reader has learned of that ended this way. */
  function LastWith(pairs: seq<(AttemptRecord, ApplyResult)>, status: AttemptStatus): Option<AttemptRecord> {
    var n := |pairs|;
    if n == 0 then None
    else if pairs[n - 1].0.status == status then Some(pairs[n - 1].0)
    else LastWith(pairs[..n - 1], status)
  }

  /** The lifecycle status, for somebody who has only read the events. */
  function StatusFrom(pairs: seq<(AttemptRecord, ApplyResult)>): Status {
    if pairs == [] then Status(StateUnloaded, None, None, None, None, None)
    else
      var (attempt, apply) := pairs[|pairs| - 1];
      Status(apply.managerState, apply.current, Some(attempt), LastWith(pairs, StatusSucceeded),
             LastWith(pairs, StatusFailed), Some(apply))
  }

  function AttemptsFrom(pairs: seq<(AttemptRecord, ApplyResult)>): seq<AttemptRecord> {
    seq(|pairs|, i requires 0 <= i < |pairs| => pairs[i].0)
  }

  /** What the events show are the accepted results in order, without the failures applied from outside; so they
      show all of them if and only if there was no such failure. */
  lemma {:induction false} LogShowsAccepted<T>(clock: nat -> Time, limit: int, entries: seq<Entry<T>>)
    ensures var r := Replay(clock, limit, entries);
      var pairs := ReadLog(FRESH_READER, r.log).seen;
      && pairs == VisiblePairs(r.accepted)
      && (pairs == AllPairs(r.accepted) <==> forall e | e in entries :: !ExternalFailure(e.op))
  {
    hide Replay, LinkOk, Visible, ExternalFailure;
    var r := Replay(clock, limit, entries);
    var taken := Taken(entries);
    LogIsRead(clock, limit, entries);
    VisibleCount(r.accepted);
    TakenKeepsFailures(entries);
    VisibleMeansNotExternalFailure(clock, limit, entries);
    assert (forall a | a in r.accepted :: Visible(a)) <==> (forall e | e in taken :: !ExternalFailure(e.op)) by {
      forall i | 0 <= i < |taken| ensures r.accepted[i] in r.accepted && taken[i] in taken {
      }
    }
  }

  // ---------------------------------------------------------------- when the events give back the status

  /** The caller of `Apply` hands in a failed attempt that passes the validator. */
  predicate ExternalFailure<T>(op: Op<T>) {
    op.ApplyOp? && Applicable(op.result) && op.result.attempt.status == StatusFailed
  }

  /** The operations that add an accepted result: all but an `Apply` of an invalid one. */
  function Taken<T>(entries: seq<Entry<T>>): seq<Entry<T>> {
    if entries == [] then []
    else
      var last := entries[|entries| - 1];
      Taken(entries[..|entries| - 1]) + (if last.op.ApplyOp? && !Applicable(last.op.result) then [] else [last])
  }

  predicate Fails<T>(clock: nat -> Time, e: Entry<T>) {
    if e.op.ApplyOp? then e.op.result.attempt.status == StatusFailed else OutcomeOf(clock, e.op, e.t).err.Some?
  }

  /** The last operation that failed, or -1. */
  function LatestFailing<T>(clock: nat -> Time, taken: seq<Entry<T>>): (i: int)
    ensures -1 <= i < |taken|
    ensures i >= 0 ==> Fails(clock, taken[i])
    ensures forall j | i < j < |taken| :: !Fails(clock, taken[j])
  {
    var n := |taken|;
    if n == 0 then -1 else if Fails(clock, taken[n - 1]) then n - 1 else LatestFailing(clock, taken[..n - 1])
  }

  /** How far back a status and the retained attempts look: at least to the last attempt. */
  function Window(limit: int): nat {
    if Capacity(limit) == 0 then 1 else Capacity(limit)
  }

  /** None of the operations still in view is an external failure, and neither is the latest failure of all. */
  predicate Rebuildable<T>(clock: nat -> Time, limit: int, taken: seq<Entry<T>>) {
    var latest := LatestFailing(clock, taken);
    && (forall i | 0 <= i < |taken| && |taken| - Window(limit) <= i :: !ExternalFailure(taken[i].op))
    && (latest >= 0 ==> !taken[latest].op.ApplyOp?)
  }

  /** The same, of the accepted results. */
  predicate InView<T>(limit: int, accepted: seq<Accepted<T>>) {
    var latest := Latest(accepted, StatusFailed);
    && (forall i | 0 <= i < |accepted| && |accepted| - Window(limit) <= i :: Visible(accepted[i]))
    && (latest >= 0 ==> Visible(accepted[latest]))
  }

  lemma {:induction false} TakenKeepsFailures<T>(entries: seq<Entry<T>>)
    ensures forall e | e in entries && ExternalFailure(e.op) :: e in Taken(entries)
    ensures forall e | e in Taken(entries) :: e in entries && (e.op.ApplyOp? ==> Applicable(e.op.result))
    decreases |entries|
  {
    if entries != [] {
      var n := |entries| - 1;
      TakenKeepsFailures(entries[..n]);
      assert entries == entries[..n] + [entries[n]];
    }
  }

  /** One operation adds the result it was given or obtained. */
  lemma PerformTakes<T>(clock: nat -> Time, r: Run<T>, e: Entry<T>)
    requires !(e.op.ApplyOp? && !Applicable(e.op.result))
    ensures var accepted := Perform(clock, r, e.op, e.t).0.accepted;
      && |accepted| == |r.accepted| + 1 && accepted[..|r.accepted|] == r.accepted
      && var a := accepted[|r.accepted|];
         && a.external == e.op.ApplyOp?
         && (a.result.attempt.status == StatusFailed <==> Fails(clock, e))
         && (a.apply.published <==> !Fails(clock, e))
  {
    hide OutcomeOf;
    if e.op.ApplyOp? {
      ApplicableShape(e.op.result);
    } else {
      OutcomeSound(clock, e.op, e.t);
      ApplicableShape(OutcomeOf(clock, e.op, e.t).result);
    }
  }

  lemma {:induction false} AcceptedAreTaken<T>(clock: nat -> Time, limit: int, entries: seq<Entry<T>>)
    ensures var accepted, taken := Replay(clock, limit, entries).accepted, Taken(entries);
      && |accepted| == |taken|
      && forall i | 0 <= i < |taken| ::
           && accepted[i].external == taken[i].op.ApplyOp?
           && (accepted[i].result.attempt.status == StatusFailed <==> Fails(clock, taken[i]))
           && (accepted[i].apply.published <==> !Fails(clock, taken[i]))
    decreases |entries|
  {
    hide Perform, Fails, Applicable;
    if entries != [] {
      var n := |entries| - 1;
      var before := Replay(clock, limit, entries[..n]);
      AcceptedAreTaken(clock, limit, entries[..n]);
      if entries[n].op.ApplyOp? && !Applicable(entries[n].op.result) {
        InvalidIsIgnored(clock, before, entries[n].op, entries[n].t);
      } else {
        PerformTakes(clock, before, entries[n]);
      }
    }
  }

  lemma InvalidIsIgnored<T>(clock: nat -> Time, r: Run<T>, op: Op<T>, t: Moments)
    requires op.ApplyOp? && !Applicable(op.result)
    ensures Perform(clock, r, op, t).0 == r
  {
  }

  lemma {:induction false} VisibleMeansNotExternalFailure<T>(clock: nat -> Time, limit: int, entries: seq<Entry<T>>)
    ensures var accepted, taken := Replay(clock, limit, entries).accepted, Taken(entries);
      |accepted| == |taken|
      && forall i | 0 <= i < |taken| :: Visible(accepted[i]) <==> !ExternalFailure(taken[i].op)
  {
    hide Replay, Applicable;
    AcceptedAreTaken(clock, limit, entries);
    TakenKeepsFailures(entries);
    forall i | 0 <= i < |Taken(entries)|
      ensures Visible(Replay(clock, limit, entries).accepted[i]) <==> !ExternalFailure(Taken(entries)[i].op)
    {
      assert Taken(entries)[i] in Taken(entries);
    }
  }

  lemma {:induction false} RebuildableIsInView<T>(clock: nat -> Time, limit: int, entries: seq<Entry<T>>)
    ensures Rebuildable(clock, limit, Taken(entries)) <==> InView(limit, Replay(clock, limit, entries).accepted)
  {
    hide Replay, Fails, Visible, ExternalFailure;
    var accepted, taken := Replay(clock, limit, entries).accepted, Taken(entries);
    AcceptedAreTaken(clock, limit, entries);
    VisibleMeansNotExternalFailure(clock, limit, entries);
    TakenKeepsFailures(entries);
    var f, g := LatestFailing(clock, taken), Latest(accepted, StatusFailed);
    assert f == g;
    if f >= 0 {
      assert taken[f] in taken;
      FailedApplyIsExternal(clock, taken[f]);
    }
  }

  lemma FailedApplyIsExternal<T>(clock: nat -> Time, e: Entry<T>)
    requires Fails(clock, e) && (e.op.ApplyOp? ==> Applicable(e.op.result))
    ensures ExternalFailure(e.op) <==> e.op.ApplyOp?
  {
  }

  // What `VisiblePairs` keeps.

  lemma {:induction false} VisibleTail<T>(accepted: seq<Accepted<T>>, k: nat)
    requires k <= |accepted| && forall i | |accepted| - k <= i < |accepted| :: Visible(accepted[i])
    ensures var pairs := VisiblePairs(accepted);
      k <= |pairs| <= |accepted| && pairs[|pairs| - k..] == AllPairs(accepted)[|accepted| - k..]
    decreases |accepted|
  {
    hide Visible;
    VisibleCount(accepted);
    if k > 0 {
      var n := |accepted| - 1;
      VisibleTail(accepted[..n], k - 1);
      var last := [(accepted[n].result.attempt, accepted[n].apply)];
      assert VisiblePairs(accepted) == VisiblePairs(accepted[..n]) + last;
      assert AllPairs(accepted) == AllPairs(accepted[..n]) + last;
    }
  }

  lemma {:induction false} VisibleLast<T>(accepted: seq<Accepted<T>>, status: AttemptStatus)
    ensures var i := Latest(accepted, status);
      var last := LastWith(VisiblePairs(accepted), status);
      if i < 0 then last.None? else Visible(accepted[i]) ==> last == Some(accepted[i].result.attempt)
    decreases |accepted|
  {
    hide Visible;
    if accepted != [] {
      var n := |accepted| - 1;
      var before := VisiblePairs(accepted[..n]);
      VisibleLast(accepted[..n], status);
      if Visible(accepted[n]) {
        assert VisiblePairs(accepted)[..|before|] == before;
        assert VisiblePairs(accepted)[|before|] == (accepted[n].result.attempt, accepted[n].apply);
      } else {
        assert VisiblePairs(accepted) == before;
      }
    }
  }

  /** Every pair is that of a visible result. */
  lemma {:induction false} PairSource<T>(accepted: seq<Accepted<T>>, k: nat) returns (j: nat)
    requires k < |VisiblePairs(accepted)|
    ensures j < |accepted| && Visible(accepted[j])
    ensures VisiblePairs(accepted)[k] == (accepted[j].result.attempt, accepted[j].apply)
    decreases |accepted|
  {
    var n := |accepted| - 1;
    if k < |VisiblePairs(accepted[..n])| {
      j := PairSource(accepted[..n], k);
    } else {
      j := n;
    }
  }

  lemma {:induction false} LastWithIsThere(pairs: seq<(AttemptRecord, ApplyResult)>, status: AttemptStatus)
    returns (k: nat)
    requires LastWith(pairs, status).Some?
    ensures k < |pairs| && LastWith(pairs, status) == Some(pairs[k].0)
    decreases |pairs|
  {
    var n := |pairs| - 1;
    if pairs[n].0.status == status {
      k := n;
    } else {
      k := LastWithIsThere(pairs[..n], status);
    }
  }

  /** A record that the events show is the record of a visible result: identifiers do not repeat. */
  lemma {:induction false} ShownIsVisible<T>(accepted: seq<Accepted<T>>, k: nat, i: nat)
    requires Chain(accepted) && |accepted| < ID_SPACE
    requires k < |VisiblePairs(accepted)| && i < |accepted|
    requires VisiblePairs(accepted)[k].0 == accepted[i].result.attempt
    ensures Visible(accepted[i])
  {
    hide LinkOk, VisiblePairs;
    var j := PairSource(accepted, k);
    if j < i {
      IdsDistinct(accepted, j, i);
    } else if i < j {
      IdsDistinct(accepted, i, j);
    }
  }

  ghost predicate Rebuilt<T>(m: State<T>, limit: int, pairs: seq<(AttemptRecord, ApplyResult)>) {
    StatusOf(m) == StatusFrom(pairs) && m.history == Suffix(AttemptsFrom(pairs), Capacity(limit))
  }

  lemma {:induction false} InViewIsRebuilt<T>(m: State<T>, limit: int, accepted: seq<Accepted<T>>)
    requires Reflects(m, limit, accepted) && Chain(accepted) && InView(limit, accepted)
    ensures Rebuilt(m, limit, VisiblePairs(accepted))
  {
    hide VisiblePairs, LastWith, Visible;
    var pairs := VisiblePairs(accepted);
    var k := if |accepted| <= Window(limit) then |accepted| else Window(limit);
    VisibleTail(accepted, k);
    LastKnownGood(m, limit, accepted);
    VisibleLast(accepted, StatusSucceeded);
    VisibleLast(accepted, StatusFailed);
    if accepted != [] {
      var n := |accepted| - 1;
      assert LinkOk(accepted, n);
      assert accepted[..n + 1] == accepted;
      assert pairs[|pairs| - k..][k - 1] == AllPairs(accepted)[|accepted| - k..][k - 1];
      var s := Latest(accepted, StatusSucceeded);
      if s >= 0 {
        SuccessIsVisible(accepted, s);
      }
    }
    TailIsHistory(limit, accepted, pairs, k);
  }

  lemma SuccessIsVisible<T>(accepted: seq<Accepted<T>>, i: nat)
    requires Chain(accepted) && i < |accepted| && accepted[i].result.attempt.status == StatusSucceeded
    ensures Visible(accepted[i])
  {
    assert LinkOk(accepted, i);
  }

  lemma TailIsHistory<T>(limit: int, accepted: seq<Accepted<T>>, pairs: seq<(AttemptRecord, ApplyResult)>, k: nat)
    requires k == if |accepted| <= Window(limit) then |accepted| else Window(limit)
    requires k <= |pairs| <= |accepted|
    requires pairs[|pairs| - k..] == AllPairs(accepted)[|accepted| - k..]
    ensures Suffix(Records(accepted), Capacity(limit)) == Suffix(AttemptsFrom(pairs), Capacity(limit))
  {
    var n := Capacity(limit);
    var x, y := Suffix(Records(accepted), n), Suffix(AttemptsFrom(pairs), n);
    assert |x| == |y|;
    forall i | 0 <= i < |x| ensures x[i] == y[i] {
      var d := k - |x| + i;
      assert pairs[|pairs| - k..][d] == AllPairs(accepted)[|accepted| - k..][d];
    }
  }

  lemma {:induction false} RebuiltIsInView<T>(m: State<T>, limit: int, accepted: seq<Accepted<T>>)
    requires Reflects(m, limit, accepted) && Chain(accepted) && |accepted| < ID_SPACE
    requires Rebuilt(m, limit, VisiblePairs(accepted))
    ensures InView(limit, accepted)
  {
    hide VisiblePairs, LastWith, LinkOk, Visible;
    var pairs := VisiblePairs(accepted);
    VisibleCount(accepted);
    var n := |accepted|;
    forall i | 0 <= i < n && n - Window(limit) <= i ensures Visible(accepted[i]) {
      if i == n - 1 {
        ShownIsVisible(accepted, |pairs| - 1, i);
      } else {
        var p := i - (n - |m.history|);
        assert m.history[p] == Records(accepted)[i];
        assert Suffix(AttemptsFrom(pairs), Capacity(limit))[p] == pairs[|pairs| - |m.history| + p].0;
        ShownIsVisible(accepted, |pairs| - |m.history| + p, i);
      }
    }
    var f := Latest(accepted, StatusFailed);
    if f >= 0 {
      var k := LastWithIsThere(pairs, StatusFailed);
      ShownIsVisible(accepted, k, f);
    }
  }

  /** The events give back the whole lifecycle status and the retained attempts if and only if no external failure
      is among the operations still in view, and the latest failure of all is not external either. An external
      failure that a later attempt has pushed out of view on both counts does no harm. */
  lemma {:induction false} LogRebuildsStatus<T>(clock: nat -> Time, limit: int, entries: seq<Entry<T>>)
    requires |Taken(entries)| < ID_SPACE
    ensures var r := Replay(clock, limit, entries);
      Rebuilt(r.m, limit, ReadLog(FRESH_READER, r.log).seen) <==> Rebuildable(clock, limit, Taken(entries))
  {
    hide Replay, Rebuildable, InView, Rebuilt;
    var r := Replay(clock, limit, entries);
    LogIsRead(clock, limit, entries);
    ReplayReflects(clock, limit, entries);
    AcceptedAreTaken(clock, limit, entries);
    RebuildableIsInView(clock, limit, entries);
    if InView(limit, r.accepted) {
      InViewIsRebuilt(r.m, limit, r.accepted);
    }
    if Rebuilt(r.m, limit, VisiblePairs(r.accepted)) {
      RebuiltIsInView(r.m, limit, r.accepted);
    }
  }

  /** A failure applied from outside changes the state and leaves no trace in the log, so the events do not give
      back the status. */
  lemma ExternalFailureIsInvisible(clock: nat -> Time)
    ensures var failure := FailedAttempt(KindReload, StageDecode, NO_METADATA, "", 0, 0,
                                         FailureDetail(CodeDecodeFailed, "config decode failed"));
            var op: Op<int> := ApplyOp(Context(None, Canceled), LoadResult(None, failure));
            var r := Perform(clock, InitialRun(0), op, Moments(0, 0, 0, 0, 0, 0, 0)).0;
      r.log == [] && LifecycleStateOf(r.m) == StateFailed && |r.accepted| == 1
  {
  }

  // ---------------------------------------------------------------- observers see the state they are told

  ghost predicate Truthful(log: seq<Emission>) {
    forall i | 0 <= i < |log| :: log[i].event.managerState == log[i].live
  }

  /** At every observer call the manager is in exactly the state the event reports. */
  lemma {:induction false} EventsAreTruthful<T>(clock: nat -> Time, limit: int, entries: seq<Entry<T>>)
    ensures Truthful(Replay(clock, limit, entries).log)
    decreases |entries|
  {
    hide Perform;
    if entries != [] {
      var n := |entries| - 1;
      var r := Replay(clock, limit, entries[..n]);
      EventsAreTruthful(clock, limit, entries[..n]);
      var a, events := PerformIsOneBlock(clock, r, entries[n].op, entries[n].t);
    }
  }

  // ---------------------------------------------------------------- counters

  datatype Counts = Counts(started: nat, completed: nat, failed: nat, published: nat, changed: nat)

  const NO_COUNTS := Counts(0, 0, 0, 0, 0)

  /** The counter switch of the metrics observer. */
  function Count(c: Counts, e: Event): Counts {
    match e.kind
    case LoadStarted => c.(started := c.started + 1)
    case LoadSucceeded => c.(completed := c.completed + 1)
    case LoadFailed => c.(completed := c.completed + 1, failed := c.failed + 1)
    case SnapshotApplied =>
      c.(published := c.published + 1,
         changed := c.changed + if e.apply.Some? && e.apply.value.changed then 1 else 0)
  }

  function Tally(log: seq<Emission>): Counts {
    if log == [] then NO_COUNTS else Count(Tally(log[..|log| - 1]), log[|log| - 1].event)
  }

  /** The metrics observer: five counters and no other state. */
  class Metrics {
    var loadStarted: nat
    var loadCompleted: nat
    var loadFailed: nat
    var applyPublished: nat
    var applyChanged: nat

    function Value(): Counts
      reads this
    {
      Counts(loadStarted, loadCompleted, loadFailed, applyPublished, applyChanged)
    }

    constructor ()
      ensures Value() == NO_COUNTS
    {
      loadStarted, loadCompleted, loadFailed, applyPublished, applyChanged := 0, 0, 0, 0, 0;
    }

    method Observe(event: Event)
      modifies this
      ensures Value() == Count(old(Value()), event)
    {
      match event.kind {
        case LoadStarted =>
          loadStarted := loadStarted + 1;
        case LoadSucceeded =>
          loadCompleted := loadCompleted + 1;
        case LoadFailed =>
          loadCompleted := loadCompleted + 1;
          loadFailed := loadFailed + 1;
        case SnapshotApplied =>
          applyPublished := applyPublished + 1;
          if event.apply.Some? && event.apply.value.changed {
            applyChanged := applyChanged + 1;
          }
      }
    }
  }

  /** Observing a log event by event leaves the metrics at its tally. */
  method ObserveAll(metrics: Metrics, log: seq<Emission>)
    requires metrics.Value() == NO_COUNTS
    modifies metrics
    ensures metrics.Value() == Tally(log)
  {
    for i := 0 to |log|
      invariant metrics.Value() == Tally(log[..i])
    {
      assert log[..i + 1][..i] == log[..i];
      metrics.Observe(log[i].event);
    }
    assert log[..|log|] == log;
  }

  /** What the accepted results say the counters should be. */
  function ExpectedCounts<T>(accepted: seq<Accepted<T>>): Counts {
    if accepted == [] then NO_COUNTS
    else
      var c := ExpectedCounts(accepted[..|accepted| - 1]);
      var a := accepted[|accepted| - 1];
      Counts(c.started + (if a.external then 0 else 1),
             c.completed + (if a.external then 0 else 1),
             c.failed + (if a.external || a.apply.published then 0 else 1),
             c.published + (if a.apply.published then 1 else 0),
             c.changed + (if a.apply.changed then 1 else 0))
  }

  lemma {:induction false} TallyExtends(log: seq<Emission>, e: Emission)
    ensures Tally(log + [e]) == Count(Tally(log), e.event)
  {
    assert (log + [e])[..|log|] == log;
  }

  lemma {:induction false} BlockIsCounted<T>(log: seq<Emission>, events: seq<Emission>, accepted: seq<Accepted<T>>,
                                             a: Accepted<T>, before: LifecycleState)
    requires IsBlock(events, a, before) && (a.apply.changed ==> a.apply.published)
    requires Tally(log) == ExpectedCounts(accepted)
    ensures Tally(log + events) == ExpectedCounts(accepted + [a])
  {
    hide Tally;
    assert (accepted + [a])[..|accepted|] == accepted;
    TallyThree(log, events);
  }

  lemma {:induction false} TallyThree(log: seq<Emission>, events: seq<Emission>)
    requires |events| <= 3
    ensures var c := Tally(log);
      Tally(log + events) ==
      match |events|
      case 0 => c
      case 1 => Count(c, events[0].event)
      case 2 => Count(Count(c, events[0].event), events[1].event)
      case _ => Count(Count(Count(c, events[0].event), events[1].event), events[2].event)
  {
    hide Tally, Count;
    if events == [] {
      assert log + events == log;
    } else {
      TallyExtends(log, events[0]);
      if |events| == 1 {
        assert log + events == log + [events[0]];
      } else {
        TallyExtends(log + [events[0]], events[1]);
        if |events| == 2 {
          assert log + events == log + [events[0]] + [events[1]];
        } else {
          TallyExtends(log + [events[0]] + [events[1]], events[2]);
          assert log + events == log + [events[0]] + [events[1]] + [events[2]];
        }
      }
    }
  }

  lemma {:induction false} LogIsCounted<T>(clock: nat -> Time, limit: int, entries: seq<Entry<T>>)
    ensures var r := Replay(clock, limit, entries); Tally(r.log) == ExpectedCounts(r.accepted)
    decreases |entries|
  {
    hide Perform, IsBlock, Tally, ExpectedCounts, Applicable;
    if entries == [] {
      EmptyCounts<T>();
    } else {
      var n := |entries| - 1;
      var r := Replay(clock, limit, entries[..n]);
      LogIsCounted(clock, limit, entries[..n]);
      var a, events := PerformIsOneBlock(clock, r, entries[n].op, entries[n].t);
      if !(entries[n].op.ApplyOp? && !Applicable(entries[n].op.result)) {
        BlockIsCounted(r.log, events, r.accepted, a, LifecycleStateOf(r.m));
      }
    }
  }

  lemma EmptyCounts<T>()
    ensures Tally([]) == ExpectedCounts<T>([]) == NO_COUNTS
  {
  }

  function CountIf<T>(accepted: seq<Accepted<T>>, p: Accepted<T> -> bool): nat {
    if accepted == [] then 0
    else CountIf(accepted[..|accepted| - 1], p) + (if p(accepted[|accepted| - 1]) then 1 else 0)
  }

  lemma {:induction false} ExpectedCountsBalance<T>(accepted: seq<Accepted<T>>)
    ensures var c := ExpectedCounts(accepted);
      && c.started == c.completed == CountIf(accepted, (a: Accepted<T>) => !a.external)
      && c.failed == CountIf(accepted, (a: Accepted<T>) => !a.external && !a.apply.published)
      && c.published == c.completed - c.failed
                        + CountIf(accepted, (a: Accepted<T>) => a.external && a.apply.published)
      && c.changed == ChangedCount(accepted)
    decreases |accepted|
  {
    if accepted != [] {
      ExpectedCountsBalance(accepted[..|accepted| - 1]);
    }
  }

  /** Counter conservation: every started load completes; what was published is what completed without
      failing plus what was applied from outside; what changed is the number of checksum transitions. */
  lemma {:induction false} CountersBalance<T>(clock: nat -> Time, limit: int, entries: seq<Entry<T>>)
    ensures var r := Replay(clock, limit, entries);
            var c := Tally(r.log);
      && c.started == c.completed == CountIf(r.accepted, (a: Accepted<T>) => !a.external)
      && c.failed == CountIf(r.accepted, (a: Accepted<T>) => !a.external && !a.apply.published)
      && c.published == c.completed - c.failed
                        + CountIf(r.accepted, (a: Accepted<T>) => a.external && a.apply.published)
      && c.changed == Transitions(PublishedChecksums(r.accepted))
  {
    var r := Replay(clock, limit, entries);
    LogIsCounted(clock, limit, entries);
    ExpectedCountsBalance(r.accepted);
    ReplayReflects(clock, limit, entries);
    ChangedIsTransitions(r.accepted);
  }

  // ---------------------------------------------------------------- error text never gets out

  ghost predicate AlikeOps<T(!new)>(a: Op<T>, b: Op<T>) {
    match (a, b)
    case (ApplyOp(c, x), ApplyOp(d, y)) => c == d && x == y
    case (LoadOp(c, k, x, p), LoadOp(d, l, y, q)) => c == d && k == l && x == y && AlikePipelines(p, q)
    case (SourceOp(c, k, x, p), SourceOp(d, l, y, q)) => c == d && k == l && AlikeSources(x, y) && AlikePipelines(p, q)
    case _ => false
  }

  lemma AlikeOutcomesOf<T(!new)>(clock: nat -> Time, a: Op<T>, b: Op<T>, t: Moments)
    requires !a.ApplyOp? && AlikeOps(a, b)
    ensures AlikeLoads(OutcomeOf(clock, a, t), OutcomeOf(clock, b, t))
  {
    hide AlikePipelines, AlikeSources, AlikeLoads;
    match a
    case LoadOp(ctx, kind, data, p) =>
      AlikeOutcomesOfLoad(Job(ctx, clock, kind, data, p, clock(t.startedAt)), b.pipeline, t.loadAt);
    case SourceOp(ctx, kind, source, p) =>
      AlikeSourceLoads(ctx, clock, kind, source, b.source, p, b.pipeline, clock(t.startedAt), t.metadataAt, t.loadAt);
  }

  /** Two operations that differ only in error text or panic payload leave identical runs: state, log,
      accepted results, source calls. */
  lemma AlikePerform<T(!new)>(clock: nat -> Time, r: Run<T>, a: Op<T>, b: Op<T>, t: Moments)
    requires AlikeOps(a, b)
    ensures Perform(clock, r, a, t).0 == Perform(clock, r, b, t).0
  {
    if !a.ApplyOp? {
      AlikeAnnouncements(a, b, t);
      AlikeOutcomesOf(clock, a, b, t);
      OutcomeSound(clock, a, t);
      OutcomeSound(clock, b, t);
      AlikeManaged(clock, r, a, b, t);
    }
  }

  lemma AlikeAnnouncements<T(!new)>(a: Op<T>, b: Op<T>, t: Moments)
    requires !a.ApplyOp? && AlikeOps(a, b)
    ensures !b.ApplyOp? && KindOf(a) == KindOf(b)
    ensures AnnouncedSource(a, t) == AnnouncedSource(b, t) && AnnouncedRevision(a) == AnnouncedRevision(b)
    ensures MetadataCalls(a) == MetadataCalls(b) && ReadCalls(a, t) == ReadCalls(b, t)
  {
    hide AlikePipelines;
    if a.SourceOp? && a.source.Some? {
      var m, n := a.source.value.metadata(t.metadataAt), b.source.value.metadata(t.metadataAt);
      assert m == n || (m.MetadataPanic? && n.MetadataPanic?);
    }
  }

  lemma AlikeManaged<T(!new)>(clock: nat -> Time, r: Run<T>, a: Op<T>, b: Op<T>, t: Moments)
    requires !a.ApplyOp? && !b.ApplyOp? && KindOf(a) == KindOf(b)
    requires AnnouncedSource(a, t) == AnnouncedSource(b, t) && AnnouncedRevision(a) == AnnouncedRevision(b)
    requires MetadataCalls(a) == MetadataCalls(b) && ReadCalls(a, t) == ReadCalls(b, t)
    requires AlikeLoads(OutcomeOf(clock, a, t), OutcomeOf(clock, b, t))
    ensures PerformManaged(clock, r, a, t).0 == PerformManaged(clock, r, b, t).0
  {
    hide OutcomeOf, SameClass, AnnouncedSource, MetadataCalls, ReadCalls, Applicable, Commit, ApplyOf;
  }

  /** The whole run, for any number of operations. */
  lemma {:induction false} AlikeReplays<T(!new)>(clock: nat -> Time, limit: int, xs: seq<Entry<T>>, ys: seq<Entry<T>>)
    requires |xs| == |ys|
    requires forall i | 0 <= i < |xs| :: AlikeOps(xs[i].op, ys[i].op) && xs[i].t == ys[i].t
    ensures Replay(clock, limit, xs) == Replay(clock, limit, ys)
    decreases |xs|
  {
    hide AlikeOps, Perform;
    if xs != [] {
      var n := |xs| - 1;
      AlikeReplays(clock, limit, xs[..n], ys[..n]);
      AlikePerform(clock, Replay(clock, limit, xs[..n]), xs[n].op, ys[n].op, xs[n].t);
    }
  }
}
