/** The command's answer agrees with what the manager recorded. */
module ReloadLaws {
  import opened Core
  import opened Errors
  import opened Pipelines
  import opened LoadLaws
  import opened Lifecycle
  import opened RunLaws
  import opened OperationLaws
  import opened Reloads

  /** A pipeline has to decode, redact and sum; the other steps are optional. */
  predicate HasSteps<T>(p: Pipeline<T>) {
    p.decode.Some? && p.redact.Some? && p.checksum.Some?
  }

  predicate Usable<T>(h: Handler<T>, request: string) {
    h.source.Some? && HasSteps(h.pipeline) && request == h.name
  }

  /** A command is rejected exactly when the handler lacks its source or a required pipeline step or the name
      is not its own, whatever the context says; and then nothing happened, not even a call of the source. */
  lemma RejectedIsInert<T>(clock: nat -> Time, r: Run<T>, h: Handler<T>, ctx: Context, request: string,
                           refusal: Option<Error>, t: Moments)
    ensures var (r', out) := Handle(clock, r, h, ctx, request, refusal, t);
      && (out.RejectedCommand? <==> !Usable(h, request))
      && (out.RejectedCommand? ==> r' == r)
      && (out.RejectedCommand? ==>
            && out.message == (if h.source.None? then "config reload command handler is missing source"
                               else if !HasSteps(h.pipeline) then
                                 "config reload command handler has invalid pipeline"
                               else "unsupported config reload command")
            && out.failure == if h.source.None? then
                                Some(FailureDetail(CodeMissingSource, "config source is missing"))
                              else if !HasSteps(h.pipeline) then
                                Some(FailureDetail(CodePipelineValidateFailed, "config pipeline validation failed"))
                              else None)
  {
    hide Perform;
    if Usable(h, request) && refusal.None? {
      ReplyIsManaged(clock, r, SourceOp(ctx, KindReload, h.source, h.pipeline), t);
    }
  }

  /** A command completes exactly when its own reload published, and then the payload is that reload's own
      attempt and apply result, and the configuration that is now current. */
  lemma CompletedIsPublished<T>(clock: nat -> Time, r: Run<T>, h: Handler<T>, ctx: Context, request: string,
                                refusal: Option<Error>, t: Moments)
    ensures var (r', out) := Handle(clock, r, h, ctx, request, refusal, t);
      && (out.CompletedCommand? <==>
            |r'.accepted| == |r.accepted| + 1 && r'.accepted[|r.accepted|].apply.published)
      && (out.CompletedCommand? ==>
            var a := r'.accepted[|r.accepted|];
            && r'.m.current == a.result.snapshot && r'.m.current.Some?
            && var now := r'.m.current.value.metadata;
               out.payload == ReloadResult(a.result.attempt.id, StatusSucceeded, StateLoaded, true, a.apply.changed,
                                           now.checksum, now.revision, None))
  {
    hide Perform;
    if Usable(h, request) && refusal.None? {
      LoadIsRecorded(clock, r, SourceOp(ctx, KindReload, h.source, h.pipeline), t);
    }
  }

  /** A failed command leaves the current configuration as it was; and if the load was admitted, the code the
      operator sees is the code of the recorded attempt. */
  lemma FailedPreservesCurrent<T>(clock: nat -> Time, r: Run<T>, h: Handler<T>, ctx: Context, request: string,
                                  refusal: Option<Error>, t: Moments)
    ensures var (r', out) := Handle(clock, r, h, ctx, request, refusal, t);
      out.FailedCommand? ==>
        && r'.m.current == r.m.current
        && (r'.accepted == r.accepted <==> refusal.Some?)
        && (refusal.Some? ==> r' == r)
        && (refusal.None? ==>
              && r'.m.lastAttempt.Some? && r'.m.lastAttempt.value.failure.Some?
              && out.detail.code == r'.m.lastAttempt.value.failure.value.code)
  {
    hide Perform;
    if Usable(h, request) && refusal.None? {
      LoadIsRecorded(clock, r, SourceOp(ctx, KindReload, h.source, h.pipeline), t);
    }
  }

  /** What the operator reads: the message of a failed command says whether it was cancelled, ran out of time or failed,
      in step with its code, and shows no other text than the recorded failure's. */
  lemma OperatorMessages<T>(clock: nat -> Time, r: Run<T>, h: Handler<T>, ctx: Context, request: string,
                            refusal: Option<Error>, t: Moments)
    ensures var (r', out) := Handle(clock, r, h, ctx, request, refusal, t);
      && (out.CompletedCommand? ==> out.message == "config reload succeeded")
      && (out.FailedCommand? ==>
            && out.message == (if out.detail.code == CodeCanceled then "config reload canceled"
                               else if out.detail.code == CodeDeadlineExceeded then "config reload deadline exceeded"
                               else "config reload failed")
            && (out.detail.code == CodeCanceled || out.detail.code == CodeDeadlineExceeded ==>
                  out.detail.message == out.message)
            && (out.detail.code == CodeReloadFailed ==> out.detail.message == "config reload failed")
            && (refusal.None? && out.message == "config reload failed" ==>
                  r'.m.lastAttempt.Some? && r'.m.lastAttempt.value.failure == Some(out.detail)))
  {
    hide Perform;
    if Usable(h, request) {
      if refusal.None? {
        var op := SourceOp(ctx, KindReload, h.source, h.pipeline);
        LoadIsRecorded(clock, r, op, t);
        var reply := Perform(clock, r, op, t).1;
        ReplyMessages(reply.result.attempt, reply.apply, reply.err);
      } else {
        RefusalMessages(refusal.value);
      }
    }
  }

  lemma ReplyMessages(attempt: AttemptRecord, apply: ApplyResult, err: Option<Error>)
    requires err.None? <==> attempt.status == StatusSucceeded
    requires err.Some? ==>
      attempt.status == StatusFailed && attempt.failure == Some(ExpectedFailure(attempt.stage, err.value))
    ensures var out := Answer(attempt, apply, err);
      && (err.None? ==> out.CompletedCommand? && out.message == "config reload succeeded")
      && (err.Some? ==>
            && out.FailedCommand?
            && out.message == (if out.detail.code == CodeCanceled then "config reload canceled"
                               else if out.detail.code == CodeDeadlineExceeded then "config reload deadline exceeded"
                               else "config reload failed")
            && (out.detail.code == CodeCanceled || out.detail.code == CodeDeadlineExceeded ==>
                  out.detail.message == out.message)
            && out.detail.code != CodeReloadFailed
            && (out.message == "config reload failed" ==> attempt.failure == Some(out.detail)))
  {
  }

  lemma RefusalMessages(cause: Error)
    ensures var out := Answer(NO_ATTEMPT, NO_APPLY, Some(cause));
      && out.FailedCommand?
      && out.message == (if out.detail.code == CodeCanceled then "config reload canceled"
                         else if out.detail.code == CodeDeadlineExceeded then "config reload deadline exceeded"
                         else "config reload failed")
      && out.detail.message == out.message
      && (out.message == "config reload failed" <==> out.detail.code == CodeReloadFailed)
  {
  }

  /** An attempt recorded through the command never failed for a reason the command rejects beforehand. */
  lemma RecordedReasons<T>(clock: nat -> Time, r: Run<T>, h: Handler<T>, ctx: Context, request: string, t: Moments)
    requires Usable(h, request)
    ensures var r' := Handle(clock, r, h, ctx, request, None, t).0;
      && r'.m.lastAttempt.Some?
      && r'.m.lastAttempt.value.kind == KindReload
      && r'.m.lastAttempt.value.stage != StagePipelineValidate
      && (r'.m.lastAttempt.value.failure.Some? ==>
            r'.m.lastAttempt.value.failure.value.code
            !in {CodeMissingSource, CodePipelineValidateFailed, CodeReloadFailed})
  {
    hide Perform, SourceOutcome;
    var op := SourceOp(ctx, KindReload, h.source, h.pipeline);
    SourceReasons(ctx, clock, KindReload, h.source.value, h.pipeline, clock(t.startedAt), t.metadataAt, t.loadAt);
    AttemptIsOutcome(clock, r, op, t);
  }

  lemma AttemptIsOutcome<T>(clock: nat -> Time, r: Run<T>, op: Op<T>, t: Moments)
    requires !op.ApplyOp?
    ensures var (r', reply) := Perform(clock, r, op, t);
      r'.m.lastAttempt == Some(OutcomeOf(clock, op, t).result.attempt.(id := NextId(r.m.nextId)))
  {
    hide OutcomeOf;
    OutcomeSound(clock, op, t);
  }

  ghost predicate ReasonOk<T>(out: Loaded<T>, kind: AttemptKind) {
    var attempt := out.result.attempt;
    && attempt.kind == kind
    && attempt.stage != StagePipelineValidate
    && (attempt.failure.Some? ==>
          attempt.failure.value.code !in {CodeMissingSource, CodePipelineValidateFailed, CodeReloadFailed})
  }

  lemma {:induction false} StageReasons<T>(job: Job<T>, stages: seq<AttemptStage>, w: Work<T>, now: nat)
    requires Validate(job.pipeline).None?
    requires forall i | 1 <= i < |stages| :: stages[i] != StagePipelineValidate
    ensures ReasonOk(RunStages(job, stages, w, now), job.kind)
    decreases |stages|
  {
    if job.ctx.Err(now).None? && stages != [] {
      match RunStage(job, stages[0], now + 1, w)
      case Failure(_) =>
      case Success(w') => StageReasons(job, stages[1..], w', now + 2);
    }
  }

  lemma SourceReasons<T>(ctx: Context, clock: nat -> Time, kind: AttemptKind, source: SourceBehaviour,
                         pipeline: Pipeline<T>, startedAt: Time, metadataAt: nat, now: nat)
    requires Validate(pipeline).None?
    ensures ReasonOk(SourceOutcome(ctx, clock, kind, Some(source), pipeline, startedAt, metadataAt, now), kind)
  {
    hide RunStages;
    if ReadMetadata(source, metadataAt).Success? {
      var read := Recover("read config source", source.read(ctx, now));
      if read.Success? {
        var data := WithSource(read.value, ReadMetadata(source, metadataAt).value);
        StageReasons(Job(ctx, clock, kind, data, pipeline, startedAt), StageList(pipeline), Blank, now + 1);
      }
    }
  }

  /** The fallback code is seen exactly when the admission refused a usable command with an error that is
      neither a cancellation nor a deadline. */
  lemma FallbackExactly<T>(clock: nat -> Time, r: Run<T>, h: Handler<T>, ctx: Context, request: string,
                           refusal: Option<Error>, t: Moments)
    ensures var out := Handle(clock, r, h, ctx, request, refusal, t).1;
      (out.FailedCommand? && out.detail.code == CodeReloadFailed) <==>
      (Usable(h, request) && refusal.Some? && !Is(refusal.value, Canceled) && !Is(refusal.value, DeadlineExceeded))
  {
    hide Perform;
    if Usable(h, request) && refusal.None? {
      LoadIsRecorded(clock, r, SourceOp(ctx, KindReload, h.source, h.pipeline), t);
      RecordedReasons(clock, r, h, ctx, request, t);
      FailedPreservesCurrent(clock, r, h, ctx, request, refusal, t);
    }
  }

  /** With the standard library's contexts the fallback is unreachable, and a refused command says what its
      context said. */
  lemma NoFallbackUnderStandardContexts<T>(clock: nat -> Time, r: Run<T>, h: Handler<T>, ctx: Context, request: string,
                                           now: nat, t: Moments)
    requires ctx.Standard()
    ensures var out := Handle(clock, r, h, ctx, request, ctx.Err(now), t).1;
      && (out.FailedCommand? ==> out.detail.code != CodeReloadFailed)
      && (Usable(h, request) && ctx.Err(now).Some? ==>
            out == (if ctx.cause == Canceled then
                      FailedCommand("config reload canceled", FailureDetail(CodeCanceled, "config reload canceled"))
                    else
                      FailedCommand("config reload deadline exceeded",
                                    FailureDetail(CodeDeadlineExceeded, "config reload deadline exceeded"))))
  {
    hide Perform;
    FallbackExactly(clock, r, h, ctx, request, ctx.Err(now), t);
  }
}
