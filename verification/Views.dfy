/** What readers of a manager see: lifecycle status, retained attempts, and the operator's inspection. */
module Views {
  import opened Core
  import opened LoadLaws
  import opened Lifecycle
  import opened RunLaws

  /** `LifecycleStatus`. */
  datatype Status = Status(
    state: LifecycleState,
    current: Option<SnapshotMetadata>,
    lastAttempt: Option<AttemptRecord>,
    lastSuccess: Option<AttemptRecord>,
    lastFailure: Option<AttemptRecord>,
    lastApply: Option<ApplyResult>
  )

  function StatusOf<T>(m: State<T>): Status {
    Status(LifecycleStateOf(m), MetadataOf(m.current), m.lastAttempt, m.lastSuccess, m.lastFailure, m.lastApply)
  }

  function RedactedIn<T>(snapshot: Option<Snapshot<T>>): RedactedView {
    if snapshot.None? then None else snapshot.value.redacted
  }

  function RedactedOf<T>(m: State<T>): RedactedView {
    RedactedIn(m.current)
  }

  /** Everything one read of the manager can return: `LifecycleStatus` is the first part,
      `LifecycleInspection` the first two, `Attempts` the third, `Inspect` all four. */
  datatype View = View(
    status: Status,
    redacted: RedactedView,
    attempts: seq<AttemptRecord>,
    lastApply: Option<ApplyResult>
  )

  function ViewOf<T>(m: State<T>): View {
    View(StatusOf(m), RedactedOf(m), m.history, m.lastApply)
  }

  /** `lifecycleReady`. */
  function Ready(state: LifecycleState, degradedReady: bool): bool {
    match state
    case StateLoaded => true
    case StateDegraded => degradedReady
    case _ => false
  }

  /** `managerDegradedReady`: ready while degraded, unless the manager was told otherwise. */
  function DegradedReady(option: Option<bool>): bool {
    match option
    case None => true
    case Some(ready) => ready
  }

  /** `attemptSummary`: the failure, source and checksum stay out of the summary. */
  datatype AttemptSummary = AttemptSummary(
    id: nat,
    kind: AttemptKind,
    status: AttemptStatus,
    stage: AttemptStage,
    startedAt: Time,
    endedAt: Time
  )

  function Summarize(attempt: Option<AttemptRecord>): Option<AttemptSummary> {
    match attempt
    case None => None
    case Some(a) => Some(AttemptSummary(a.id, a.kind, a.status, a.stage, a.startedAt, a.endedAt))
  }

  datatype Inspection = Inspection(
    state: LifecycleState,
    ready: bool,
    current: Option<SnapshotMetadata>,
    lastAttempt: Option<AttemptSummary>,
    lastSuccess: Option<AttemptSummary>,
    lastFailure: Option<AttemptSummary>,
    redacted: RedactedView,
    recentAttempts: seq<AttemptRecord>,
    lastApply: Option<ApplyResult>
  )

  /** `opskitInspectionFromSnapshot`. */
  function InspectionOf(view: View, degradedReady: bool): Inspection {
    Inspection(view.status.state, Ready(view.status.state, degradedReady), view.status.current,
               Summarize(view.status.lastAttempt), Summarize(view.status.lastSuccess),
               Summarize(view.status.lastFailure), view.redacted, view.attempts, view.lastApply)
  }

  /** `opskitStatusUpdatedAt`: the first of the three timestamps that is set. */
  function UpdatedAt(status: Status): Option<Time> {
    if status.lastApply.Some? && status.lastApply.value.appliedAt != ZERO_TIME then
      Some(status.lastApply.value.appliedAt)
    else if status.lastAttempt.Some? && status.lastAttempt.value.endedAt != ZERO_TIME then
      Some(status.lastAttempt.value.endedAt)
    else if status.current.Some? && status.current.value.loadedAt != ZERO_TIME then
      Some(status.current.value.loadedAt)
    else None
  }

  /** Readiness is decided by the accepted history: something has been published, and either the latest
      result published too or the manager counts as ready while degraded. */
  lemma {:induction false} ReadinessFromHistory<T>(m: State<T>, limit: int, accepted: seq<Accepted<T>>,
                                                   degradedReady: bool)
    requires Reflects(m, limit, accepted) && Chain(accepted)
    ensures Ready(StatusOf(m).state, degradedReady) <==>
      && Latest(accepted, StatusSucceeded) >= 0
      && (accepted[|accepted| - 1].apply.published || degradedReady)
  {
    LastKnownGood(m, limit, accepted);
    if accepted != [] {
      assert LinkOk(accepted, |accepted| - 1);
    }
  }

  /** The parts of one inspection agree with each other and with the accepted history: one state, the
      readiness it calls for, the newest retained attempt is the last attempt, the current metadata is the
      last apply's, a redacted view only with a current snapshot. */
  lemma {:induction false} InspectionIsCoherent<T>(m: State<T>, limit: int, accepted: seq<Accepted<T>>,
                                                   degradedReady: bool)
    requires Reflects(m, limit, accepted) && Chain(accepted)
    ensures var i := InspectionOf(ViewOf(m), degradedReady);
      && (i.ready <==>
            Latest(accepted, StatusSucceeded) >= 0 && (accepted[|accepted| - 1].apply.published || degradedReady))
      && (i.recentAttempts != [] ==> i.lastAttempt == Summarize(Some(i.recentAttempts[|i.recentAttempts| - 1])))
      && (i.lastApply.None? <==> accepted == [])
      && (i.lastApply.Some? ==> i.lastApply.value.current == i.current && i.lastApply.value.managerState == i.state)
      && (i.redacted.Some? ==> i.current.Some?)
  {
    LastKnownGood(m, limit, accepted);
    ReadinessFromHistory(m, limit, accepted, degradedReady);
    if accepted != [] {
      var n := |accepted| - 1;
      assert LinkOk(accepted, n);
      assert accepted[..n + 1] == accepted;
      if m.history != [] {
        assert Records(accepted)[n] == accepted[n].result.attempt;
      }
    }
  }

  /** The summary is of this attempt. */
  predicate Summary(s: Option<AttemptSummary>, a: AttemptRecord) {
    && s.Some?
    && s.value.id == a.id && s.value.kind == a.kind && s.value.status == a.status && s.value.stage == a.stage
    && s.value.startedAt == a.startedAt && s.value.endedAt == a.endedAt
  }

  /** Every part of a view is decided by the accepted history: the last attempt, success and failure are the latest of
      their kind, the redacted view is the one in the latest success, and nothing else is ever shown. */
  lemma {:induction false} ViewIsHistory<T>(m: State<T>, limit: int, accepted: seq<Accepted<T>>)
    requires Reflects(m, limit, accepted) && Chain(accepted)
    ensures var v := ViewOf(m);
            var last, success, failure :=
              |accepted| - 1, Latest(accepted, StatusSucceeded), Latest(accepted, StatusFailed);
      && v.status.state == StateAfter(accepted)
      && v.status.current == CurrentAfter(accepted)
      && v.status.lastAttempt == (if last < 0 then None else Some(accepted[last].result.attempt))
      && v.status.lastSuccess == (if success < 0 then None else Some(accepted[success].result.attempt))
      && v.status.lastFailure == (if failure < 0 then None else Some(accepted[failure].result.attempt))
      && v.status.lastApply == v.lastApply == (if last < 0 then None else Some(accepted[last].apply))
      && v.attempts == Suffix(Records(accepted), Capacity(limit))
      && (success < 0 ==> v.redacted.None?)
      && (success >= 0 ==>
            accepted[success].result.snapshot.Some? && v.redacted == accepted[success].result.snapshot.value.redacted)
  {
    LastKnownGood(m, limit, accepted);
    var success := Latest(accepted, StatusSucceeded);
    if success >= 0 {
      assert LinkOk(accepted, success);
    }
  }

  /** An inspection shows the view it was made from, with each attempt in summary; a degraded manager is ready unless
      it was told otherwise. */
  lemma InspectionShowsView(view: View, option: Option<bool>)
    ensures var i := InspectionOf(view, DegradedReady(option));
      && i.state == view.status.state && i.current == view.status.current
      && i.redacted == view.redacted && i.recentAttempts == view.attempts && i.lastApply == view.lastApply
      && i.ready == (i.state == StateLoaded || (i.state == StateDegraded && option != Some(false)))
      && (if view.status.lastAttempt.None? then i.lastAttempt.None?
          else Summary(i.lastAttempt, view.status.lastAttempt.value))
      && (if view.status.lastSuccess.None? then i.lastSuccess.None?
          else Summary(i.lastSuccess, view.status.lastSuccess.value))
      && (if view.status.lastFailure.None? then i.lastFailure.None?
          else Summary(i.lastFailure, view.status.lastFailure.value))
  {
  }

  /** `Status.UpdatedAt`, from the accepted history: the time at which the latest result was accepted; where the
      clock gave the zero time, the end of that attempt; where that is zero too, the end of the load that made
      the current snapshot, if there is one; and none only if all of them are zero or missing. */
  lemma {:induction false} UpdatedAtFromHistory<T>(m: State<T>, limit: int, accepted: seq<Accepted<T>>)
    requires Reflects(m, limit, accepted) && Chain(accepted)
    ensures accepted == [] ==> UpdatedAt(StatusOf(m)).None?
    ensures accepted != [] ==>
      var last := accepted[|accepted| - 1];
      var success := Latest(accepted, StatusSucceeded);
      && (last.apply.appliedAt != ZERO_TIME ==> UpdatedAt(StatusOf(m)) == Some(last.apply.appliedAt))
      && (last.apply.appliedAt == ZERO_TIME && last.result.attempt.endedAt != ZERO_TIME ==>
            UpdatedAt(StatusOf(m)) == Some(last.result.attempt.endedAt))
      && (last.apply.appliedAt == ZERO_TIME && last.result.attempt.endedAt == ZERO_TIME ==>
            UpdatedAt(StatusOf(m)) ==
            if success < 0 then None
            else
              assert LinkOk(accepted, success);
              var loadedAt := accepted[success].result.snapshot.value.metadata.loadedAt;
              if loadedAt == ZERO_TIME then None else Some(loadedAt))
  {
    var success := Latest(accepted, StatusSucceeded);
    if success >= 0 {
      assert LinkOk(accepted, success);
    }
  }
}
