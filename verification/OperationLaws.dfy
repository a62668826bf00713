/** What one admitted operation of the manager does for its caller, said in terms of the caller's own arguments: the
    context, the data or the source, the pipeline, and the result handed to `Apply`. */
module OperationLaws {
  import opened Core
  import opened Errors
  import opened Pipelines
  import opened LoadLaws
  import opened LoadSteps
  import opened Lifecycle
  import opened RunLaws

  // ---------------------------------------------------------------- managed loads

  /** What one managed load leaves behind: one more accepted result, returned to the caller as it was recorded,
      with the failure its error calls for. */
  lemma LoadIsRecorded<T>(clock: nat -> Time, r: Run<T>, op: Op<T>, t: Moments)
    requires !op.ApplyOp?
    ensures var (r', reply) := Perform(clock, r, op, t);
      && reply.Managed?
      && r'.accepted == r.accepted + [Accepted(false, reply.result, reply.apply)]
      && r'.m.lastAttempt == Some(reply.result.attempt)
      && r'.m.lastApply == Some(reply.apply)
      && reply.apply.previous == MetadataOf(r.m.current) && reply.apply.current == MetadataOf(r'.m.current)
      && reply.apply.managerState == LifecycleStateOf(r'.m)
      && (reply.apply.published <==> reply.err.None?)
      && (reply.err.None? <==> reply.result.attempt.status == StatusSucceeded)
      && (reply.err.Some? ==>
            && reply.result.attempt.status == StatusFailed
            && reply.result.attempt.failure == Some(ExpectedFailure(reply.result.attempt.stage, reply.err.value))
            && r'.m.current == r.m.current)
      && (reply.err.None? ==> r'.m.current == reply.result.snapshot && r'.m.current.Some?)
  {
    hide OutcomeOf;
    OutcomeSound(clock, op, t);
  }

  /** The reply is the outcome of the load under the next identifier, accepted at the moment of the commit. */
  lemma ReplyIsOutcome<T>(clock: nat -> Time, r: Run<T>, op: Op<T>, t: Moments)
    requires !op.ApplyOp?
    ensures var reply := Perform(clock, r, op, t).1;
            var out := OutcomeOf(clock, op, t);
      && reply.Managed?
      && reply.result == out.result.(attempt := out.result.attempt.(id := NextId(r.m.nextId)))
      && reply.err == out.err
      && reply.apply.appliedAt == clock(t.committedAt)
  {
    hide OutcomeOf, Applicable;
    OutcomeSound(clock, op, t);
    ApplicableIgnoresId(OutcomeOf(clock, op, t).result, NextId(r.m.nextId));
  }

  /** An explanation does not look at the identifier. */
  lemma ExplainedIgnoresId<T>(ctx: Context, p: Pipeline<T>, data: SourceData, from: nat, result: LoadResult<T>,
                              err: Option<Error>, trail: Trail<T>, id: nat)
    requires Explained(ctx, p, data, from, result, err, trail)
    ensures Explained(ctx, p, data, from, WithId(result, id), err, trail)
  {
    hide Stops, Produces;
  }

  lemma SourceExplainedIgnoresId<T>(ctx: Context, p: Pipeline<T>, source: Option<SourceBehaviour>, metadataAt: nat,
                                    from: nat, result: LoadResult<T>, err: Option<Error>, data: SourceData,
                                    trail: Trail<T>, id: nat)
    requires SourceExplained(ctx, p, source, metadataAt, from, result, err, data, trail)
    ensures SourceExplained(ctx, p, source, metadataAt, from, WithId(result, id), err, data, trail)
  {
    hide Stops, Produces;
  }

  /** A managed load does what the caller's pipeline and context make of the caller's data. A context that ended
      between the admission and the load fails it with the context's own error. */
  lemma LoadReplyIsExplained<T>(clock: nat -> Time, r: Run<T>, ctx: Context, kind: AttemptKind, data: SourceData,
                                pipeline: Pipeline<T>, t: Moments)
    returns (trail: Trail<T>)
    ensures var (r', reply) := Perform(clock, r, LoadOp(ctx, kind, data, pipeline), t);
      && reply.Managed?
      && Explained(ctx, pipeline, data, t.loadAt, reply.result, reply.err, trail)
      && reply.result.attempt.kind == kind && reply.result.attempt.startedAt == clock(t.startedAt)
      && reply.result.attempt.source == data.metadata && reply.result.attempt.revision == data.revision
      && (reply.err.None? ==> r'.m.current == reply.result.snapshot)
      && (ctx.Err(t.loadAt).Some? ==>
            && reply.err == Some(ctx.cause) && reply.result.attempt.stage == StageContext
            && r'.m.current == r.m.current)
  {
    var op := LoadOp(ctx, kind, data, pipeline);
    var job := Job(ctx, clock, kind, data, pipeline, clock(t.startedAt));
    trail := LoadIsExplained(job, t.loadAt);
    LoadIsStamped(job, StageList(pipeline), Blank, t.loadAt);
    hide Explained, Perform, RunStages;
    ReplyIsOutcome(clock, r, op, t);
    LoadIsRecorded(clock, r, op, t);
    var out := OutcomeOf(clock, op, t);
    ExplainedIgnoresId(ctx, pipeline, data, t.loadAt, out.result, out.err, trail, NextId(r.m.nextId));
    if ctx.Err(t.loadAt).Some? {
      EndedContextDecides(ctx, pipeline, data, t.loadAt, out.result, out.err, trail);
    }
  }

  /** So does a managed load from a source, on what the source returned when it was read under the caller's context:
      its bytes and its revision reach the decoder as they are. */
  lemma SourceReplyIsExplained<T>(clock: nat -> Time, r: Run<T>, ctx: Context, kind: AttemptKind,
                                  source: Option<SourceBehaviour>, pipeline: Pipeline<T>, t: Moments)
    returns (data: SourceData, trail: Trail<T>)
    ensures var (r', reply) := Perform(clock, r, SourceOp(ctx, kind, source, pipeline), t);
      && reply.Managed?
      && SourceExplained(ctx, pipeline, source, t.metadataAt, t.loadAt, reply.result, reply.err, data, trail)
      && reply.result.attempt.kind == kind && reply.result.attempt.startedAt == clock(t.startedAt)
      && (reply.err.None? ==> r'.m.current == reply.result.snapshot)
      && (reply.err.Some? ==> r'.m.current == r.m.current)
      && (source.Some? && source.value.metadata(t.metadataAt).Described? && source.value.read(ctx, t.loadAt).Ok?
          && ctx.Err(t.loadAt + 1).Some? ==>
            reply.err == Some(ctx.cause) && reply.result.attempt.stage == StageContext)
  {
    var op := SourceOp(ctx, kind, source, pipeline);
    data, trail := SourceLoadIsExplained(ctx, clock, kind, source, pipeline, clock(t.startedAt), t.metadataAt,
                                         t.loadAt);
    SourceLoadIsStamped(ctx, clock, kind, source, pipeline, clock(t.startedAt), t.metadataAt, t.loadAt);
    hide Explained, Perform, SourceOutcome;
    ReplyIsOutcome(clock, r, op, t);
    LoadIsRecorded(clock, r, op, t);
    var out := OutcomeOf(clock, op, t);
    SourceExplainedIgnoresId(ctx, pipeline, source, t.metadataAt, t.loadAt, out.result, out.err, data, trail,
                             NextId(r.m.nextId));
    if source.Some? && source.value.metadata(t.metadataAt).Described? && source.value.read(ctx, t.loadAt).Ok?
       && ctx.Err(t.loadAt + 1).Some? {
      EndedContextDecides(ctx, pipeline, data, t.loadAt + 1, out.result, out.err, trail);
    }
  }

  // ---------------------------------------------------------------- Apply

  /** A complete success that agrees with its snapshot, or a complete failure. */
  ghost predicate Acceptable<T>(result: LoadResult<T>) {
    var a := result.attempt;
    || (&& a.status == StatusSucceeded && result.snapshot.Some? && a.stage == StageNone && a.failure.None?
        && a.checksum != ""
        && var m := result.snapshot.value.metadata;
           m.source == a.source && m.revision == a.revision && m.checksum == a.checksum)
    || (&& a.status == StatusFailed && result.snapshot.None? && a.stage != StageNone && a.checksum == ""
        && a.failure.Some? && a.failure.value != FailureDetail(CodeNone, ""))
  }

  /** `Apply` accepts exactly the complete results. An accepted one is recorded as the caller gave it but for the
      identifier, becomes current if it is a success, and comes back as the last apply; for any other the caller gets
      the zero result with an error that matches `ErrInvalidLoadResult`, and nothing happened. */
  lemma ApplyIsRecorded<T>(clock: nat -> Time, r: Run<T>, ctx: Context, result: LoadResult<T>, t: Moments)
    ensures var (r', reply) := Perform(clock, r, ApplyOp(ctx, result), t);
      && reply.Applied?
      && (reply.err.None? <==> Acceptable(result))
      && (reply.err.Some? ==>
            r' == r && reply.apply == NO_APPLY && Is(reply.err.value, InvalidLoadResult))
      && (reply.err.None? ==>
            var recorded := result.(attempt := result.attempt.(id := NextId(r.m.nextId)));
            && r'.accepted == r.accepted + [Accepted(true, recorded, reply.apply)]
            && r'.m.nextId == NextId(r.m.nextId)
            && r'.m.lastAttempt == Some(recorded.attempt) && r'.m.lastApply == Some(reply.apply)
            && r'.m.current == (if result.attempt.status == StatusSucceeded then result.snapshot else r.m.current)
            && r'.sourceCalls == r.sourceCalls
            && reply.apply.published == (result.attempt.status == StatusSucceeded)
            && reply.apply.previous == MetadataOf(r.m.current) && reply.apply.current == MetadataOf(r'.m.current)
            && reply.apply.managerState == LifecycleStateOf(r'.m)
            && reply.apply.appliedAt == clock(t.committedAt))
  {
    hide InvalidReason, Remember;
    ApplicableShape(result);
    ApplicableIgnoresId(result, NextId(r.m.nextId));
    InvalidMatches(result);
  }

  lemma InvalidMatches<T>(result: LoadResult<T>)
    ensures !Applicable(result) ==> Is(Wrap(InvalidReason(result).value, InvalidLoadResult), InvalidLoadResult)
  {
  }

  // ---------------------------------------------------------------- what the outside is told

  /** The public failure of each stage. */
  const PUBLIC_FAILURES: map<AttemptStage, FailureDetail> := map[
    StageContext := FailureDetail(CodeContextFailed, "config load context failed"),
    StageSourceRead := FailureDetail(CodeSourceReadFailed, "config source read failed"),
    StagePipelineValidate := FailureDetail(CodePipelineValidateFailed, "config pipeline validation failed"),
    StageDecode := FailureDetail(CodeDecodeFailed, "config decode failed"),
    StageDefaults := FailureDetail(CodeDefaultsFailed, "config default application failed"),
    StageValidateConfig := FailureDetail(CodeValidateConfigFailed, "config validation failed"),
    StageCopy := FailureDetail(CodeCopyFailed, "config copy failed"),
    StageRedact := FailureDetail(CodeRedactFailed, "config redaction failed"),
    StageChecksum := FailureDetail(CodeChecksumFailed, "config checksum failed")
  ]

  ghost function PublicFailure(stage: AttemptStage, e: Error): FailureDetail
    requires stage in PUBLIC_FAILURES
  {
    if stage == StageSourceRead && e == MissingSource then FailureDetail(CodeMissingSource, "config source is missing")
    else if Canceled in Unwrapped(e) then FailureDetail(CodeCanceled, "config load canceled")
    else if DeadlineExceeded in Unwrapped(e) then
      FailureDetail(CodeDeadlineExceeded, "config load deadline exceeded")
    else PUBLIC_FAILURES[stage]
  }

  /** The failure a managed load records is decided by its stage and by whether its error is a context sentinel, and by
      nothing else; a missing source has a failure of its own, and the catch-all of the classification is never
      recorded. */
  lemma RecordedFailureIsPublic<T>(clock: nat -> Time, r: Run<T>, op: Op<T>, t: Moments)
    requires !op.ApplyOp?
    ensures var reply := Perform(clock, r, op, t).1;
      && reply.Managed?
      && (reply.err.Some? ==>
            var e, a := reply.err.value, reply.result.attempt;
            && a.stage in PUBLIC_FAILURES
            && a.failure == Some(PublicFailure(a.stage, e)))
  {
    StageIsPublic(clock, op, t);
    hide Perform, OutcomeOf, ExpectedFailure, PublicFailure, Unwrapped;
    LoadIsRecorded(clock, r, op, t);
    ReplyIsOutcome(clock, r, op, t);
    var reply := Perform(clock, r, op, t).1;
    if reply.err.Some? {
      ExpectedIsPublic(reply.result.attempt.stage, reply.err.value);
    }
  }

  lemma ExpectedIsPublic(stage: AttemptStage, e: Error)
    requires stage in PUBLIC_FAILURES
    ensures ExpectedFailure(stage, e) == PublicFailure(stage, e)
  {
    hide Unwrapped, Is;
    IsIsMembership(e, Canceled);
    IsIsMembership(e, DeadlineExceeded);
  }

  lemma StageIsPublic<T>(clock: nat -> Time, op: Op<T>, t: Moments)
    requires !op.ApplyOp?
    ensures var out := OutcomeOf(clock, op, t); out.err.Some? ==> out.result.attempt.stage in PUBLIC_FAILURES
  {
    hide RunStages;
    match op
    case LoadOp(ctx, kind, data, pipeline) =>
      LoadIsStamped(Job(ctx, clock, kind, data, pipeline, clock(t.startedAt)), StageList(pipeline), Blank, t.loadAt);
    case SourceOp(ctx, kind, source, pipeline) =>
      if source.Some? && source.value.metadata(t.metadataAt).Described? && source.value.read(ctx, t.loadAt).Ok? {
        var data := WithSource(source.value.read(ctx, t.loadAt).value, source.value.metadata(t.metadataAt).metadata);
        LoadIsStamped(Job(ctx, clock, kind, data, pipeline, clock(t.startedAt)), StageList(pipeline), Blank,
                      t.loadAt + 1);
      }
  }

  // ---------------------------------------------------------------- when, and how often

  /** The events of an operation carry the times at which they were sent. */
  lemma EventsAreStamped<T>(clock: nat -> Time, r: Run<T>, op: Op<T>, t: Moments)
    ensures var log := Perform(clock, r, op, t).0.log;
            var n := |r.log|;
      if op.ApplyOp? then
        n <= |log| <= n + 1 && (|log| == n + 1 ==> log[n].event.occurredAt == clock(t.publishedAt))
      else
        && n + 2 <= |log| <= n + 3
        && log[n].event.occurredAt == clock(t.announcedAt)
        && log[n + 1].event.occurredAt == clock(t.finishedAt)
        && (|log| == n + 3 ==> log[n + 2].event.occurredAt == clock(t.publishedAt))
  {
    hide OutcomeOf, InvalidReason, Commit, ApplyOf, LifecycleStateOf, AnnouncedSource;
  }

  /** An operation calls a source only if it was given one: once for its metadata, and once more to read it unless
      the first call panicked. */
  lemma SourceIsCalled<T>(clock: nat -> Time, r: Run<T>, op: Op<T>, t: Moments)
    ensures Perform(clock, r, op, t).0.sourceCalls ==
            r.sourceCalls + if !op.SourceOp? || op.source.None? then 0
                            else if op.source.value.metadata(t.metadataAt).MetadataPanic? then 1
                            else 2
  {
    hide OutcomeOf, InvalidReason, Commit, ApplyOf, LifecycleStateOf, AnnouncedSource;
  }

  // ---------------------------------------------------------------- over whole runs

  /** The accepted result is what this operation made of its arguments, and of nothing else. */
  ghost predicate Earned<T>(e: Entry<T>, a: Accepted<T>, err: Option<Error>, data: SourceData, trail: Trail<T>) {
    match e.op
    case ApplyOp(_, result) =>
      a.external && Acceptable(result) && a.result == result.(attempt := result.attempt.(id := a.result.attempt.id))
    case LoadOp(ctx, kind, given, pipeline) =>
      && !a.external && data == given && a.result.attempt.kind == kind
      && Explained(ctx, pipeline, given, e.t.loadAt, a.result, err, trail)
    case SourceOp(ctx, kind, source, pipeline) =>
      && !a.external && a.result.attempt.kind == kind
      && SourceExplained(ctx, pipeline, source, e.t.metadataAt, e.t.loadAt, a.result, err, data, trail)
  }

  lemma PerformEarns<T>(clock: nat -> Time, r: Run<T>, e: Entry<T>)
    returns (err: Option<Error>, data: SourceData, trail: Trail<T>)
    ensures var r' := Perform(clock, r, e.op, e.t).0;
      r' == r || (&& |r'.accepted| == |r.accepted| + 1 && r.accepted <= r'.accepted
                  && Earned(e, r'.accepted[|r.accepted|], err, data, trail))
  {
    hide Perform, Explained, SourceExplained, Acceptable;
    err, data, trail := None, SourceData([], NO_METADATA, ""), Trail(0, 0, 0, 0, 0, 0, 0, None, None, None);
    match e.op
    case ApplyOp(ctx, result) =>
      ApplyIsRecorded(clock, r, ctx, result, e.t);
    case LoadOp(ctx, kind, given, pipeline) =>
      trail := LoadReplyIsExplained(clock, r, ctx, kind, given, pipeline, e.t);
      LoadIsRecorded(clock, r, e.op, e.t);
      data, err := given, Perform(clock, r, e.op, e.t).1.err;
    case SourceOp(ctx, kind, source, pipeline) =>
      data, trail := SourceReplyIsExplained(clock, r, ctx, kind, source, pipeline, e.t);
      LoadIsRecorded(clock, r, e.op, e.t);
      err := Perform(clock, r, e.op, e.t).1.err;
  }

  /** Nothing is ever recorded, and so nothing ever published, that one of the admitted operations has not earned. */
  lemma {:induction false} RecordIsEarned<T>(clock: nat -> Time, limit: int, entries: seq<Entry<T>>, k: nat)
    returns (i: nat, err: Option<Error>, data: SourceData, trail: Trail<T>)
    requires k < |Replay(clock, limit, entries).accepted|
    ensures i < |entries| && Earned(entries[i], Replay(clock, limit, entries).accepted[k], err, data, trail)
    decreases |entries|
  {
    hide Perform, Earned;
    var n := |entries| - 1;
    var before := Replay(clock, limit, entries[..n]);
    if k < |before.accepted| {
      i, err, data, trail := RecordIsEarned(clock, limit, entries[..n], k);
      var _, _, _ := PerformEarns(clock, before, entries[n]);
    } else {
      i := n;
      err, data, trail := PerformEarns(clock, before, entries[n]);
    }
  }
}
