/** The manager as a value: what one accepted result does to its state, what one admitted
    operation does to the state and to the event log, and the replay of a sequence of admitted
    operations. The `Manager` class and the concurrent system are both proved against this. */
module Lifecycle {
  import opened Core
  import opened Errors
  import opened Pipelines
  import opened LoadLaws

  const DEFAULT_ATTEMPT_HISTORY_LIMIT: int := 20

  /** The manager's fields; `limit` is the raw `attemptHistoryLimit` field. */
  datatype State<+T> = State(
    nextId: nat,
    current: Option<Snapshot<T>>,
    lastAttempt: Option<AttemptRecord>,
    lastSuccess: Option<AttemptRecord>,
    lastFailure: Option<AttemptRecord>,
    lastApply: Option<ApplyResult>,
    history: seq<AttemptRecord>,
    limit: int
  )

  function InitialState<T>(limit: int): State<T> {
    State(0, None, None, None, None, None, [], limit)
  }

  /** The limit field a manager is built with: `NewManager` turns an option of zero or less into -1,
      and the zero value of `Manager` has 0. */
  function ConfiguredLimit(option: Option<int>): int {
    match option
    case None => DEFAULT_ATTEMPT_HISTORY_LIMIT
    case Some(n) => if n <= 0 then -1 else n
  }

  /** How many attempts a limit field keeps: zero stands for the default, negative for none. */
  function Capacity(limit: int): nat {
    if limit == 0 then DEFAULT_ATTEMPT_HISTORY_LIMIT else if limit < 0 then 0 else limit
  }

  /** `recordAttemptLocked`. */
  function Remember(history: seq<AttemptRecord>, attempt: AttemptRecord, limit: int): seq<AttemptRecord> {
    if limit < 0 then history
    else
      var longer := history + [attempt];
      if |longer| <= Capacity(limit) then longer else longer[|longer| - Capacity(limit)..]
  }

  function LifecycleStateOf<T>(m: State<T>): LifecycleState {
    var failed := m.lastAttempt.Some? && m.lastAttempt.value.status == StatusFailed;
    if m.current.None? then (if failed then StateFailed else StateUnloaded)
    else if failed then StateDegraded
    else StateLoaded
  }

  // ---------------------------------------------------------------- one accepted result

  predicate Publishes<T>(result: LoadResult<T>) {
    result.attempt.status == StatusSucceeded && result.snapshot.Some?
  }

  /** The three groups of writes `apply` makes under the write lock, in order. */
  function WriteAttempt<T>(m: State<T>, attempt: AttemptRecord): State<T> {
    m.(lastAttempt := Some(attempt), history := Remember(m.history, attempt, m.limit))
  }

  function WriteOutcome<T>(m: State<T>, result: LoadResult<T>): State<T> {
    if Publishes(result) then m.(current := result.snapshot, lastSuccess := Some(result.attempt))
    else if result.attempt.status == StatusFailed then m.(lastFailure := Some(result.attempt))
    else m
  }

  function WriteApply<T>(m: State<T>, apply: ApplyResult): State<T> {
    m.(lastApply := Some(apply))
  }

  function ApplyOf<T>(m: State<T>, result: LoadResult<T>, at: Time): ApplyResult {
    var previous := MetadataOf(m.current);
    var written := WriteOutcome(WriteAttempt(m, result.attempt), result);
    var current := if Publishes(result) then Some(result.snapshot.value.metadata) else previous;
    var changed := Publishes(result)
                   && (previous.None? || previous.value.checksum != result.snapshot.value.metadata.checksum);
    ApplyResult(Publishes(result), changed, previous, current, LifecycleStateOf(written), at)
  }

  function Commit<T>(m: State<T>, result: LoadResult<T>, at: Time): State<T> {
    WriteApply(WriteOutcome(WriteAttempt(m, result.attempt), result), ApplyOf(m, result, at))
  }

  // ---------------------------------------------------------------- runs

  /** One call of the observers: the event, and the state of the manager when they were called. */
  datatype Emission = Emission(event: Event, live: LifecycleState)

  /** An accepted result: whether it came through `Apply`, and what applying it returned. */
  datatype Accepted<+T> = Accepted(external: bool, result: LoadResult<T>, apply: ApplyResult)

  /** The manager with everything that has happened to it. */
  datatype Run<+T> = Run(m: State<T>, log: seq<Emission>, accepted: seq<Accepted<T>>, sourceCalls: nat)

  function InitialRun<T>(limit: int): Run<T> {
    Run(InitialState(limit), [], [], 0)
  }

  function AssignId<T>(r: Run<T>): Run<T> {
    r.(m := r.m.(nextId := NextId(r.m.nextId)))
  }

  function WithId<T>(result: LoadResult<T>, id: nat): LoadResult<T> {
    result.(attempt := result.attempt.(id := id))
  }

  function Emit<T>(r: Run<T>, event: Event): Run<T> {
    r.(log := r.log + [Emission(event, LifecycleStateOf(r.m))])
  }

  function StartedEvent(id: nat, kind: AttemptKind, source: SourceMetadata, revision: string,
                        seen: LifecycleState, at: Time): Event
  {
    Event(LoadStarted, seen, id, kind, source, revision, None, None, None, at)
  }

  function FinishedEvent<T>(id: nat, kind: AttemptKind, result: LoadResult<T>, apply: ApplyResult,
                            err: Option<Error>, at: Time): Event
  {
    Event(if err.Some? then LoadFailed else LoadSucceeded, apply.managerState, id, kind,
          result.attempt.source, result.attempt.revision,
          Some(result.attempt), MetadataOf(result.snapshot), Some(apply), at)
  }

  function AppliedEvent(attempt: AttemptRecord, apply: ApplyResult, at: Time): Event {
    Event(SnapshotApplied, apply.managerState, attempt.id, attempt.kind, attempt.source, attempt.revision,
          Some(attempt), apply.current, Some(apply), at)
  }

  /** `notifySnapshotApplied`: nothing is emitted unless a snapshot was published. */
  function EmitApplied<T>(r: Run<T>, attempt: AttemptRecord, apply: ApplyResult, at: Time): Run<T> {
    if !apply.published || apply.current.None? then r else Emit(r, AppliedEvent(attempt, apply, at))
  }

  function CommitResult<T>(r: Run<T>, external: bool, result: LoadResult<T>, at: Time): Run<T> {
    r.(m := Commit(r.m, result, at),
       accepted := r.accepted + [Accepted(external, result, ApplyOf(r.m, result, at))])
  }

  // ---------------------------------------------------------------- operations

  datatype Op<!T> =
    | ApplyOp(ctx: Context, result: LoadResult<T>)
    | LoadOp(ctx: Context, kind: AttemptKind, data: SourceData, pipeline: Pipeline<T>)
    | SourceOp(ctx: Context, kind: AttemptKind, source: Option<SourceBehaviour>, pipeline: Pipeline<T>)

  /** The instants at which an admitted operation samples the clock, its context and its source. */
  datatype Moments = Moments(
    startedAt: nat,
    metadataAt: nat,
    announcedAt: nat,
    loadAt: nat,
    committedAt: nat,
    finishedAt: nat,
    publishedAt: nat
  )

  /** What the caller gets back. */
  datatype Reply<+T> =
    | Refused(cause: Error)
    | Applied(apply: ApplyResult, err: Option<Error>)
    | Managed(result: LoadResult<T>, apply: ApplyResult, err: Option<Error>)

  function KindOf<T>(op: Op<T>): AttemptKind
    requires !op.ApplyOp?
  {
    op.kind
  }

  /** The metadata and the revision that `load_started` announces. */
  function AnnouncedSource<T>(op: Op<T>, t: Moments): SourceMetadata
    requires !op.ApplyOp?
  {
    if op.LoadOp? then op.data.metadata else AnnouncedMetadata(op.source, t.metadataAt)
  }

  function AnnouncedRevision<T>(op: Op<T>): string
    requires !op.ApplyOp?
  {
    if op.LoadOp? then op.data.revision else ""
  }

  function OutcomeOf<T>(clock: nat -> Time, op: Op<T>, t: Moments): Loaded<T>
    requires !op.ApplyOp?
  {
    match op
    case LoadOp(ctx, kind, data, pipeline) =>
      LoadOutcome(Job(ctx, clock, kind, data, pipeline, clock(t.startedAt)), t.loadAt)
    case SourceOp(ctx, kind, source, pipeline) =>
      SourceOutcome(ctx, clock, kind, source, pipeline, clock(t.startedAt), t.metadataAt, t.loadAt)
  }

  function MetadataCalls<T>(op: Op<T>): nat {
    if op.SourceOp? && op.source.Some? then 1 else 0
  }

  function ReadCalls<T>(op: Op<T>, t: Moments): nat {
    if op.SourceOp? && op.source.Some? && ReadMetadata(op.source.value, t.metadataAt).Success? then 1 else 0
  }

  /** A managed load up to its identifier: the source's metadata is read before one is assigned. */
  function Begin<T>(r: Run<T>, op: Op<T>): Run<T> {
    AssignId(r.(sourceCalls := r.sourceCalls + MetadataCalls(op)))
  }

  function Announce<T>(clock: nat -> Time, r: Run<T>, op: Op<T>, t: Moments): Run<T>
    requires !op.ApplyOp?
  {
    Emit(r, StartedEvent(r.m.nextId, KindOf(op), AnnouncedSource(op, t), AnnouncedRevision(op),
                         LifecycleStateOf(r.m), clock(t.announcedAt)))
  }

  function Obtain<T>(r: Run<T>, op: Op<T>, t: Moments): Run<T> {
    r.(sourceCalls := r.sourceCalls + ReadCalls(op, t))
  }

  /** `applyValidated`: an invalid result would change nothing and return the zero apply result. */
  function SettleRun<T>(r: Run<T>, result: LoadResult<T>, at: Time): Run<T> {
    if Applicable(result) then CommitResult(r, false, result, at) else r
  }

  function SettleApply<T>(r: Run<T>, result: LoadResult<T>, at: Time): ApplyResult {
    if Applicable(result) then ApplyOf(r.m, result, at) else NO_APPLY
  }

  function SettleErr<T>(result: LoadResult<T>, err: Option<Error>): Option<Error> {
    if err.Some? then err
    else if Applicable(result) then None
    else Some(Wrap(InvalidReason(result).value, InvalidLoadResult))
  }

  function Conclude<T>(clock: nat -> Time, r: Run<T>, op: Op<T>, t: Moments, result: LoadResult<T>,
                       apply: ApplyResult, err: Option<Error>): Run<T>
    requires !op.ApplyOp?
  {
    EmitApplied(Emit(r, FinishedEvent(result.attempt.id, KindOf(op), result, apply, err, clock(t.finishedAt))),
                result.attempt, apply, clock(t.publishedAt))
  }

  function PerformManaged<T>(clock: nat -> Time, r: Run<T>, op: Op<T>, t: Moments): (Run<T>, Reply<T>)
    requires !op.ApplyOp?
  {
    var begun := Obtain(Announce(clock, Begin(r, op), op, t), op, t);
    var loaded := OutcomeOf(clock, op, t);
    var result := WithId(loaded.result, begun.m.nextId);
    var at := clock(t.committedAt);
    var apply := SettleApply(begun, result, at);
    var err := SettleErr(result, loaded.err);
    (Conclude(clock, SettleRun(begun, result, at), op, t, result, apply, err), Managed(result, apply, err))
  }

  function PerformApply<T>(clock: nat -> Time, r: Run<T>, result: LoadResult<T>, t: Moments): (Run<T>, Reply<T>) {
    if !Applicable(result) then
      (r, Applied(NO_APPLY, Some(Wrap(InvalidReason(result).value, InvalidLoadResult))))
    else
      var numbered := AssignId(r);
      var stamped := WithId(result, numbered.m.nextId);
      var apply := ApplyOf(numbered.m, stamped, clock(t.committedAt));
      (EmitApplied(CommitResult(numbered, true, stamped, clock(t.committedAt)), stamped.attempt, apply,
                   clock(t.publishedAt)),
       Applied(apply, None))
  }

  /** One admitted operation, alone. */
  function Perform<T>(clock: nat -> Time, r: Run<T>, op: Op<T>, t: Moments): (Run<T>, Reply<T>) {
    if op.ApplyOp? then PerformApply(clock, r, op.result, t) else PerformManaged(clock, r, op, t)
  }

  /** An admitted operation with the moments it took place at. */
  datatype Entry<!T> = Entry(op: Op<T>, t: Moments)

  /** Admitted operations, one after another. */
  function Replay<T>(clock: nat -> Time, limit: int, entries: seq<Entry<T>>): Run<T> {
    if entries == [] then InitialRun(limit)
    else
      var last := entries[|entries| - 1];
      Perform(clock, Replay(clock, limit, entries[..|entries| - 1]), last.op, last.t).0
  }
}
