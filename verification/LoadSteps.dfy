/** What one load does with the user's own functions, said in terms of what those functions returned and of nothing
    else: which values went from step to step, and which call a failure is about. */
module LoadSteps {
  import opened Core
  import opened Errors
  import opened Pipelines
  import opened LoadLaws

  /** The calls of one load: when they were made, and what came out of the ones that passed. A step that the
      pipeline does not have leaves the value, and the moment, as they were. */
  datatype Trail<+T> = Trail(
    decodedAt: nat,
    defaultedAt: nat,
    validatedAt: nat,
    copiedAt: nat,
    redactedAt: nat,
    checksumAt: nat,
    doneAt: nat,
    decoded: Option<T>,
    defaulted: Option<T>,
    stored: Option<T>
  )

  /** The context had not ended at the check before the call, and the call was made after `before`. */
  ghost predicate Called(ctx: Context, before: nat, at: nat) {
    before < at && ctx.Err(at - 1).None?
  }

  ghost predicate Decoded<T>(ctx: Context, p: Pipeline<T>, data: SourceData, from: nat, t: Trail<T>) {
    && p.decode.Some? && Called(ctx, from, t.decodedAt)
    && t.decoded.Some?
    && p.decode.value(ctx, t.decodedAt, data) == Ok(t.decoded.value)
  }

  ghost predicate Defaulted<T>(ctx: Context, p: Pipeline<T>, t: Trail<T>) {
    && t.decoded.Some? && t.defaulted.Some?
    && if p.applyDefaults.None? then t.defaulted == t.decoded && t.defaultedAt == t.decodedAt
       else
         && Called(ctx, t.decodedAt, t.defaultedAt)
         && p.applyDefaults.value(ctx, t.defaultedAt, t.decoded.value) == Ok(t.defaulted.value)
  }

  ghost predicate Validated<T>(ctx: Context, p: Pipeline<T>, t: Trail<T>) {
    && t.defaulted.Some?
    && if p.validateConfig.None? then t.validatedAt == t.defaultedAt
       else
         && Called(ctx, t.defaultedAt, t.validatedAt)
         && p.validateConfig.value(ctx, t.validatedAt, t.defaulted.value).Ok?
  }

  ghost predicate Copied<T>(ctx: Context, p: Pipeline<T>, t: Trail<T>) {
    && t.defaulted.Some? && t.stored.Some?
    && if p.copy.None? then t.stored == t.defaulted && t.copiedAt == t.validatedAt
       else
         && Called(ctx, t.validatedAt, t.copiedAt)
         && p.copy.value(ctx, t.copiedAt, t.defaulted.value) == Ok(t.stored.value)
  }

  /** Everything up to the value a snapshot would hold. */
  ghost predicate Prepared<T>(ctx: Context, p: Pipeline<T>, data: SourceData, from: nat, t: Trail<T>) {
    Decoded(ctx, p, data, from, t) && Defaulted(ctx, p, t) && Validated(ctx, p, t) && Copied(ctx, p, t)
  }

  ghost predicate Redacted<T>(ctx: Context, p: Pipeline<T>, t: Trail<T>, view: RedactedView) {
    && p.redact.Some? && Called(ctx, t.copiedAt, t.redactedAt)
    && t.stored.Some?
    && p.redact.value(ctx, t.redactedAt, t.stored.value) == Ok(view)
  }

  ghost predicate Summed<T>(ctx: Context, p: Pipeline<T>, t: Trail<T>, sum: string) {
    && p.checksum.Some? && Called(ctx, t.redactedAt, t.checksumAt)
    && t.stored.Some?
    && p.checksum.value(ctx, t.checksumAt, t.stored.value) == Ok(sum)
    && sum != ""
  }

  /** The error is about this call: the call's own error behind the step's prefix, or the step's panic. */
  ghost predicate Blames<V>(e: Error, prefix: string, outcome: Outcome<V>) {
    match outcome
    case Ok(_) => false
    case Err(cause) => e == if IsPanic(cause) then cause else Wrap(prefix, cause)
    case Panic(_) => e == PanicError(prefix)
  }

  /** A load of `data` that began at `from` and published this snapshot. */
  ghost predicate Produces<T>(ctx: Context, p: Pipeline<T>, data: SourceData, from: nat, s: Snapshot<T>, t: Trail<T>) {
    && Prepared(ctx, p, data, from, t)
    && t.stored == Some(s.value)
    && Redacted(ctx, p, t, s.redacted)
    && Summed(ctx, p, t, s.metadata.checksum)
    && t.checksumAt < t.doneAt && ctx.Err(t.doneAt).None?
    && s.metadata.source == data.metadata && s.metadata.revision == data.revision
  }

  /** A load of `data` that began at `from` and stopped at this stage: every step before it passed, and the error is
      the one that this step, or the context, or the pipeline itself gave. */
  ghost predicate Stops<T>(ctx: Context, p: Pipeline<T>, data: SourceData, from: nat, stage: AttemptStage, e: Error,
                           t: Trail<T>)
  {
    match stage
    case StageContext => ctx.Err(t.doneAt) == Some(e) && from <= t.doneAt
    case StagePipelineValidate =>
      && ctx.Err(from).None?
      && if p.decode.None? then e == MissingDecoder
         else if p.redact.None? then e == MissingRedactor
         else p.checksum.None? && e == MissingChecksum
    case StageDecode =>
      && p.decode.Some? && p.redact.Some? && p.checksum.Some?
      && Called(ctx, from, t.decodedAt) && Blames(e, "decode config", p.decode.value(ctx, t.decodedAt, data))
    case StageDefaults =>
      && Decoded(ctx, p, data, from, t)
      && p.applyDefaults.Some? && Called(ctx, t.decodedAt, t.defaultedAt)
      && Blames(e, "apply config defaults", p.applyDefaults.value(ctx, t.defaultedAt, t.decoded.value))
    case StageValidateConfig =>
      && Decoded(ctx, p, data, from, t) && Defaulted(ctx, p, t)
      && p.validateConfig.Some? && Called(ctx, t.defaultedAt, t.validatedAt)
      && Blames(e, "validate config", p.validateConfig.value(ctx, t.validatedAt, t.defaulted.value))
    case StageCopy =>
      && Decoded(ctx, p, data, from, t) && Defaulted(ctx, p, t) && Validated(ctx, p, t)
      && p.copy.Some? && Called(ctx, t.validatedAt, t.copiedAt)
      && Blames(e, "copy config", p.copy.value(ctx, t.copiedAt, t.defaulted.value))
    case StageRedact =>
      && Prepared(ctx, p, data, from, t)
      && p.redact.Some? && Called(ctx, t.copiedAt, t.redactedAt)
      && Blames(e, "redact config", p.redact.value(ctx, t.redactedAt, t.stored.value))
    case StageChecksum =>
      && Prepared(ctx, p, data, from, t)
      && p.redact.Some? && p.redact.value(ctx, t.redactedAt, t.stored.value).Ok?
      && p.checksum.Some? && Called(ctx, t.redactedAt, t.checksumAt)
      && var sum := p.checksum.value(ctx, t.checksumAt, t.stored.value);
         Blames(e, "checksum config", sum) || (sum == Ok("") && e == Wrap("checksum config", EmptyChecksum))
    case _ => false
  }

  /** The result and the error of a load of `data`, by what the pipeline's functions and the context did. */
  ghost predicate Explained<T>(ctx: Context, p: Pipeline<T>, data: SourceData, from: nat, result: LoadResult<T>,
                               err: Option<Error>, t: Trail<T>)
  {
    match err
    case None => result.snapshot.Some? && Produces(ctx, p, data, from, result.snapshot.value, t)
    case Some(e) => result.snapshot.None? && Stops(ctx, p, data, from, result.attempt.stage, e, t)
  }

  // ---------------------------------------------------------------- the proof, from the last stage to the first

  /** A load that finds its context ended stops there, whatever is still to be done. */
  lemma ContextStops<T>(job: Job<T>, stages: seq<AttemptStage>, w: Work<T>, from: nat, now: nat, t: Trail<T>)
    returns (t': Trail<T>)
    requires from <= now && job.ctx.Err(now).Some?
    ensures var out := RunStages(job, stages, w, now);
      Explained(job.ctx, job.pipeline, job.data, from, out.result, out.err, t')
  {
    t' := t.(doneAt := now);
  }

  /** What a recovered and prefixed call says. */
  lemma CallTells<V>(stage: AttemptStage, outcome: Outcome<V>)
    ensures var r := Call(stage, outcome);
      && (r.Success? <==> outcome.Ok?)
      && (r.Success? ==> outcome == Ok(r.value))
      && (r.Failure? ==> Blames(r.error, Prefix(stage), outcome))
  {
  }

  /** A later step leaves what is said about the earlier ones. */
  lemma Keeps<T>(ctx: Context, p: Pipeline<T>, data: SourceData, from: nat, t: Trail<T>, t': Trail<T>)
    requires (t'.decodedAt, t'.decoded) == (t.decodedAt, t.decoded)
    ensures Decoded(ctx, p, data, from, t) ==> Decoded(ctx, p, data, from, t')
    ensures (t'.defaultedAt, t'.defaulted) == (t.defaultedAt, t.defaulted) ==>
      && (Defaulted(ctx, p, t) ==> Defaulted(ctx, p, t'))
      && (t'.validatedAt == t.validatedAt ==>
            && (Validated(ctx, p, t) ==> Validated(ctx, p, t'))
            && ((t'.copiedAt, t'.stored) == (t.copiedAt, t.stored) && Prepared(ctx, p, data, from, t) ==>
                  Prepared(ctx, p, data, from, t')))
  {
  }

  lemma AfterChecksum<T>(job: Job<T>, w: Work<T>, from: nat, now: nat, t: Trail<T>) returns (t': Trail<T>)
    requires from <= t.checksumAt < now && w.Work?
    requires Prepared(job.ctx, job.pipeline, job.data, from, t) && t.stored == Some(w.value)
    requires Redacted(job.ctx, job.pipeline, t, w.redacted) && Summed(job.ctx, job.pipeline, t, w.checksum)
    ensures var out := RunStages(job, [], w, now);
      Explained(job.ctx, job.pipeline, job.data, from, out.result, out.err, t')
  {
    hide Prepared;
    t' := t.(doneAt := if job.ctx.Err(now).Some? then now else now + 1);
    Keeps(job.ctx, job.pipeline, job.data, from, t, t');
  }

  lemma AtChecksum<T>(job: Job<T>, w: Work<T>, from: nat, now: nat, t: Trail<T>) returns (t': Trail<T>)
    requires from <= t.redactedAt < now && w.Work? && Validate(job.pipeline).None?
    requires Prepared(job.ctx, job.pipeline, job.data, from, t) && t.stored == Some(w.value)
    requires Redacted(job.ctx, job.pipeline, t, w.redacted)
    ensures var out := RunStages(job, [StageChecksum], w, now);
      Explained(job.ctx, job.pipeline, job.data, from, out.result, out.err, t')
  {
    hide RunStages, Call, Prepared;
    if job.ctx.Err(now).Some? {
      t' := ContextStops(job, [StageChecksum], w, from, now, t);
    } else {
      Unfold(job, [StageChecksum], StageChecksum, [], w, now);
      t' := t.(checksumAt := now + 1);
      Keeps(job.ctx, job.pipeline, job.data, from, t, t');
      CallTells(StageChecksum, NonEmptyChecksum(job.pipeline.checksum.value(job.ctx, now + 1, w.value)));
      match RunStage(job, StageChecksum, now + 1, w)
      case Failure(_) =>
      case Success(w') => t' := AfterChecksum(job, w', from, now + 2, t');
    }
  }

  lemma AtRedact<T>(job: Job<T>, w: Work<T>, from: nat, now: nat, t: Trail<T>) returns (t': Trail<T>)
    requires from <= t.copiedAt <= now && w.Work? && Validate(job.pipeline).None?
    requires Prepared(job.ctx, job.pipeline, job.data, from, t) && t.stored == Some(w.value)
    ensures var out := RunStages(job, [StageRedact, StageChecksum], w, now);
      Explained(job.ctx, job.pipeline, job.data, from, out.result, out.err, t')
  {
    hide RunStages, Call, Blames, Prepared;
    var tail := [StageRedact, StageChecksum];
    if job.ctx.Err(now).Some? {
      t' := ContextStops(job, tail, w, from, now, t);
    } else {
      Unfold(job, tail, StageRedact, [StageChecksum], w, now);
      t' := t.(redactedAt := now + 1);
      Keeps(job.ctx, job.pipeline, job.data, from, t, t');
      CallTells(StageRedact, job.pipeline.redact.value(job.ctx, now + 1, w.value));
      match RunStage(job, StageRedact, now + 1, w)
      case Failure(_) =>
      case Success(w') => t' := AtChecksum(job, w', from, now + 2, t');
    }
  }

  lemma AtCopy<T>(job: Job<T>, w: Work<T>, from: nat, now: nat, t: Trail<T>) returns (t': Trail<T>)
    requires from <= t.validatedAt <= now && w.Work? && Validate(job.pipeline).None?
    requires Decoded(job.ctx, job.pipeline, job.data, from, t) && Defaulted(job.ctx, job.pipeline, t)
    requires Validated(job.ctx, job.pipeline, t) && t.defaulted == Some(w.value)
    ensures var stages := Optional(StageCopy, job.pipeline.copy.Some?) + [StageRedact, StageChecksum];
            var out := RunStages(job, stages, w, now);
      Explained(job.ctx, job.pipeline, job.data, from, out.result, out.err, t')
  {
    hide RunStages, Call, Blames, Decoded, Defaulted, Validated;
    var tail := [StageRedact, StageChecksum];
    if job.pipeline.copy.None? {
      assert [] + tail == tail;
      t' := t.(copiedAt := t.validatedAt, stored := t.defaulted);
      Keeps(job.ctx, job.pipeline, job.data, from, t, t');
      t' := AtRedact(job, w, from, now, t');
    } else if job.ctx.Err(now).Some? {
      t' := ContextStops(job, [StageCopy] + tail, w, from, now, t);
    } else {
      Unfold(job, [StageCopy] + tail, StageCopy, tail, w, now);
      t' := t.(copiedAt := now + 1);
      Keeps(job.ctx, job.pipeline, job.data, from, t, t');
      CallTells(StageCopy, job.pipeline.copy.value(job.ctx, now + 1, w.value));
      match RunStage(job, StageCopy, now + 1, w)
      case Failure(_) =>
      case Success(w') =>
        t' := t'.(stored := Some(w'.value));
        Keeps(job.ctx, job.pipeline, job.data, from, t, t');
        t' := AtRedact(job, w', from, now + 2, t');
    }
  }

  lemma AtValidate<T>(job: Job<T>, w: Work<T>, from: nat, now: nat, rest: seq<AttemptStage>, t: Trail<T>)
    returns (t': Trail<T>)
    requires from <= t.defaultedAt <= now && w.Work? && Validate(job.pipeline).None?
    requires Decoded(job.ctx, job.pipeline, job.data, from, t) && Defaulted(job.ctx, job.pipeline, t)
    requires t.defaulted == Some(w.value)
    requires rest == Optional(StageCopy, job.pipeline.copy.Some?) + [StageRedact, StageChecksum]
    ensures var out := RunStages(job, Optional(StageValidateConfig, job.pipeline.validateConfig.Some?) + rest, w, now);
      Explained(job.ctx, job.pipeline, job.data, from, out.result, out.err, t')
  {
    hide RunStages, Call, Blames, Decoded, Defaulted;
    if job.pipeline.validateConfig.None? {
      assert [] + rest == rest;
      t' := t.(validatedAt := t.defaultedAt);
      Keeps(job.ctx, job.pipeline, job.data, from, t, t');
      t' := AtCopy(job, w, from, now, t');
    } else if job.ctx.Err(now).Some? {
      t' := ContextStops(job, [StageValidateConfig] + rest, w, from, now, t);
    } else {
      Unfold(job, [StageValidateConfig] + rest, StageValidateConfig, rest, w, now);
      t' := t.(validatedAt := now + 1);
      Keeps(job.ctx, job.pipeline, job.data, from, t, t');
      CallTells(StageValidateConfig, job.pipeline.validateConfig.value(job.ctx, now + 1, w.value));
      match RunStage(job, StageValidateConfig, now + 1, w)
      case Failure(_) =>
      case Success(w') => t' := AtCopy(job, w', from, now + 2, t');
    }
  }

  lemma AtDefaults<T>(job: Job<T>, w: Work<T>, from: nat, now: nat, rest: seq<AttemptStage>, t: Trail<T>)
    returns (t': Trail<T>)
    requires from <= t.decodedAt <= now && w.Work? && Validate(job.pipeline).None?
    requires Decoded(job.ctx, job.pipeline, job.data, from, t) && t.decoded == Some(w.value)
    requires rest == Optional(StageValidateConfig, job.pipeline.validateConfig.Some?)
                     + (Optional(StageCopy, job.pipeline.copy.Some?) + [StageRedact, StageChecksum])
    ensures var out := RunStages(job, Optional(StageDefaults, job.pipeline.applyDefaults.Some?) + rest, w, now);
      Explained(job.ctx, job.pipeline, job.data, from, out.result, out.err, t')
  {
    hide RunStages, Call, Blames, Decoded;
    var after := Optional(StageCopy, job.pipeline.copy.Some?) + [StageRedact, StageChecksum];
    if job.pipeline.applyDefaults.None? {
      assert [] + rest == rest;
      t' := t.(defaultedAt := t.decodedAt, defaulted := t.decoded);
      Keeps(job.ctx, job.pipeline, job.data, from, t, t');
      t' := AtValidate(job, w, from, now, after, t');
    } else if job.ctx.Err(now).Some? {
      t' := ContextStops(job, [StageDefaults] + rest, w, from, now, t);
    } else {
      Unfold(job, [StageDefaults] + rest, StageDefaults, rest, w, now);
      t' := t.(defaultedAt := now + 1);
      Keeps(job.ctx, job.pipeline, job.data, from, t, t');
      CallTells(StageDefaults, job.pipeline.applyDefaults.value(job.ctx, now + 1, w.value));
      match RunStage(job, StageDefaults, now + 1, w)
      case Failure(_) =>
      case Success(w') =>
        t' := t'.(defaulted := Some(w'.value));
        Keeps(job.ctx, job.pipeline, job.data, from, t, t');
        t' := AtValidate(job, w', from, now + 2, after, t');
    }
  }

  lemma AtDecode<T>(job: Job<T>, from: nat, now: nat, rest: seq<AttemptStage>, t: Trail<T>)
    returns (t': Trail<T>)
    requires from < now && Validate(job.pipeline).None?
    requires rest == Optional(StageValidateConfig, job.pipeline.validateConfig.Some?)
                     + (Optional(StageCopy, job.pipeline.copy.Some?) + [StageRedact, StageChecksum])
    ensures var stages := [StageDecode] + (Optional(StageDefaults, job.pipeline.applyDefaults.Some?) + rest);
            var out := RunStages(job, stages, Blank, now);
      Explained(job.ctx, job.pipeline, job.data, from, out.result, out.err, t')
  {
    hide RunStages, Call, Blames;
    var after := Optional(StageDefaults, job.pipeline.applyDefaults.Some?) + rest;
    if job.ctx.Err(now).Some? {
      t' := ContextStops(job, [StageDecode] + after, Blank, from, now, t);
    } else {
      Unfold(job, [StageDecode] + after, StageDecode, after, Blank, now);
      t' := t.(decodedAt := now + 1);
      CallTells(StageDecode, job.pipeline.decode.value(job.ctx, now + 1, job.data));
      match RunStage(job, StageDecode, now + 1, Blank)
      case Failure(_) =>
      case Success(w') => t' := AtDefaults(job, w', from, now + 2, rest, t'.(decoded := Some(w'.value)));
    }
  }

  /** Every load is explained by what the pipeline's functions returned: a published value was decoded from exactly
      this data, defaulted, found valid and copied, in that order and under a live context; and a failed attempt
      names the step that stopped it, with that step's own error. */
  lemma LoadIsExplained<T>(job: Job<T>, now: nat) returns (t: Trail<T>)
    ensures var out := LoadOutcome(job, now);
      Explained(job.ctx, job.pipeline, job.data, now, out.result, out.err, t)
  {
    var p := job.pipeline;
    var rest := Optional(StageValidateConfig, p.validateConfig.Some?)
                + (Optional(StageCopy, p.copy.Some?) + [StageRedact, StageChecksum]);
    var decode := [StageDecode] + (Optional(StageDefaults, p.applyDefaults.Some?) + rest);
    assert StageList(p) == [StagePipelineValidate] + decode;
    t := Trail(0, 0, 0, 0, 0, 0, 0, None, None, None);
    if job.ctx.Err(now).Some? {
      t := ContextStops(job, StageList(p), Blank, now, now, t);
    } else {
      Unfold(job, StageList(p), StagePipelineValidate, decode, Blank, now);
      if Validate(p).None? {
        t := AtDecode(job, now, now + 2, rest, t);
      }
    }
  }

  // ---------------------------------------------------------------- loads from a source

  /** What the decoder gets of what a source returned: its bytes and its revision as they are, and the source's own
      description where the data has none. */
  ghost predicate Passed(read: SourceData, described: SourceMetadata, data: SourceData) {
    && data.data == read.data && data.revision == read.revision
    && data.metadata == if read.metadata == NO_METADATA then described else read.metadata
  }

  /** The result and the error of a load from a source, by what the source, the pipeline and the context did. */
  ghost predicate SourceExplained<T>(ctx: Context, p: Pipeline<T>, source: Option<SourceBehaviour>, metadataAt: nat,
                                     from: nat, result: LoadResult<T>, err: Option<Error>, data: SourceData,
                                     t: Trail<T>)
  {
    if source.None? then
      result.snapshot.None? && result.attempt.stage == StageSourceRead && err == Some(MissingSource)
    else
      match source.value.metadata(metadataAt)
      case MetadataPanic(_) =>
        && result.snapshot.None? && result.attempt.stage == StageSourceRead
        && err == Some(PanicError("read config source metadata"))
      case Described(described) =>
        var read := source.value.read(ctx, from);
        if read.Ok? then
          Passed(read.value, described, data) && Explained(ctx, p, data, from + 1, result, err, t)
        else
          && result.snapshot.None? && result.attempt.stage == StageSourceRead
          && err.Some? && Blames(err.value, "read config source", read)
  }

  lemma SourceLoadIsExplained<T>(ctx: Context, clock: nat -> Time, kind: AttemptKind, source: Option<SourceBehaviour>,
                                 pipeline: Pipeline<T>, startedAt: Time, metadataAt: nat, now: nat)
    returns (data: SourceData, t: Trail<T>)
    ensures var out := SourceOutcome(ctx, clock, kind, source, pipeline, startedAt, metadataAt, now);
      SourceExplained(ctx, pipeline, source, metadataAt, now, out.result, out.err, data, t)
  {
    hide LoadOutcome, Explained;
    data := SourceData([], NO_METADATA, "");
    t := Trail(0, 0, 0, 0, 0, 0, 0, None, None, None);
    if source.Some? && source.value.metadata(metadataAt).Described? && source.value.read(ctx, now).Ok? {
      data := WithSource(source.value.read(ctx, now).value, source.value.metadata(metadataAt).metadata);
      t := LoadIsExplained(Job(ctx, clock, kind, data, pipeline, startedAt), now + 1);
    }
  }

  // ---------------------------------------------------------------- consequences

  /** A context that has ended when a load begins decides it. */
  lemma EndedContextDecides<T>(ctx: Context, p: Pipeline<T>, data: SourceData, from: nat, result: LoadResult<T>,
                               err: Option<Error>, t: Trail<T>)
    requires Explained(ctx, p, data, from, result, err, t) && ctx.Err(from).Some?
    ensures err == Some(ctx.cause) && result.attempt.stage == StageContext
  {
  }

  /** With a context that never ends, a complete pipeline, and steps that always return, a load publishes. */
  lemma NothingToBlame<T>(ctx: Context, p: Pipeline<T>, data: SourceData, from: nat, result: LoadResult<T>,
                          err: Option<Error>, t: Trail<T>)
    requires Explained(ctx, p, data, from, result, err, t) && ctx.doneFrom.None? && Validate(p).None?
    requires forall m: nat :: p.decode.value(ctx, m, data).Ok?
    requires p.applyDefaults.Some? ==> forall m: nat, v :: p.applyDefaults.value(ctx, m, v).Ok?
    requires p.validateConfig.Some? ==> forall m: nat, v :: p.validateConfig.value(ctx, m, v).Ok?
    requires p.copy.Some? ==> forall m: nat, v :: p.copy.value(ctx, m, v).Ok?
    requires forall m: nat, v :: p.redact.value(ctx, m, v).Ok?
    requires forall m: nat, v :: p.checksum.value(ctx, m, v).Ok? && p.checksum.value(ctx, m, v).value != ""
    ensures err.None? && result.snapshot.Some?
  {
  }
}
