/** What every load guarantees, whatever the pipeline, the source, the context and the clock do. */
module LoadLaws {
  import opened Core
  import opened Errors
  import opened Pipelines

  /** `validateLoadResult`: why a result cannot be applied, if it cannot. */
  function InvalidReason<T>(result: LoadResult<T>): Option<string> {
    var attempt := result.attempt;
    match attempt.status
    case StatusSucceeded =>
      if result.snapshot.None? then Some("succeeded attempt missing snapshot")
      else if attempt.stage != StageNone then Some("succeeded attempt includes failure stage")
      else if attempt.failure.Some? then Some("succeeded attempt includes failure detail")
      else
        var metadata := result.snapshot.value.metadata;
        if metadata.checksum == "" then Some("succeeded snapshot missing checksum")
        else if attempt.checksum == "" then Some("succeeded attempt missing checksum")
        else if attempt.checksum != metadata.checksum then Some("succeeded attempt checksum does not match snapshot")
        else if attempt.source != metadata.source then Some("succeeded attempt source does not match snapshot")
        else if attempt.revision != metadata.revision then Some("succeeded attempt revision does not match snapshot")
        else None
    case StatusFailed =>
      if result.snapshot.Some? then Some("failed attempt includes snapshot")
      else if attempt.stage == StageNone then Some("failed attempt missing failure stage")
      else if attempt.failure.None? || attempt.failure.value == FailureDetail(CodeNone, "") then
        Some("failed attempt missing public failure detail")
      else if attempt.checksum != "" then Some("failed attempt includes checksum")
      else None
    case _ => Some("unknown attempt status")
  }

  predicate Applicable<T>(result: LoadResult<T>) {
    InvalidReason(result).None?
  }

  /** An applicable result is a complete success or a complete failure. */
  lemma ApplicableShape<T>(result: LoadResult<T>)
    ensures Applicable(result) <==>
      || (&& result.attempt.status == StatusSucceeded && result.snapshot.Some?
          && result.attempt.stage == StageNone && result.attempt.failure.None? && result.attempt.checksum != ""
          && var m := result.snapshot.value.metadata;
             (m.source, m.revision, m.checksum)
             == (result.attempt.source, result.attempt.revision, result.attempt.checksum))
      || (&& result.attempt.status == StatusFailed && result.snapshot.None?
          && result.attempt.stage != StageNone && result.attempt.checksum == ""
          && result.attempt.failure.Some? && result.attempt.failure.value != FailureDetail(CodeNone, ""))
  {
  }

  /** What the fold keeps: an error exactly with a failed attempt, and the failure the error calls for. */
  ghost predicate Sound<T>(out: Loaded<T>) {
    && Applicable(out.result)
    && (out.err.None? <==> out.result.attempt.status == StatusSucceeded)
    && (out.err.Some? ==> out.result.attempt.failure == Some(ExpectedFailure(out.result.attempt.stage, out.err.value)))
  }

  /** The public failure of an attempt that stopped at `stage` with `e`: a missing source has its own. */
  function ExpectedFailure(stage: AttemptStage, e: Error): FailureDetail {
    if stage == StageSourceRead && e == MissingSource then FailureDetail(CodeMissingSource, "config source is missing")
    else FailureFor(stage, e)
  }

  lemma FailAtSound<T>(job: Job<T>, stage: AttemptStage, e: Error, now: nat)
    requires stage != StageNone && stage != StageSourceRead
    ensures Sound(FailAt(job, stage, e, now))
  {
    var f := FailureFor(stage, e);
    assert f.code != CodeNone;
  }

  /** The stages a work is waiting for still contain its checksum, and its decoding. */
  ghost predicate Pending<T>(stages: seq<AttemptStage>, w: Work<T>) {
    && StageNone !in stages && StageSourceRead !in stages
    && (w.Blank? ==> StageDecode in stages)
    && (w.Work? && w.checksum == "" ==> StageChecksum in stages)
    && (forall i, j | 0 <= i < |stages| && 0 <= j < |stages| ::
          stages[i] == StageDecode && stages[j] == StageChecksum ==> i < j)
    && (StageDecode in stages ==> StageChecksum in stages)
  }

  /** What a stage that passes makes of a work: only decoding starts one, only the checksum stage ends it. */
  lemma StagePasses<T>(job: Job<T>, stage: AttemptStage, w: Work<T>, now: nat)
    requires Validate(job.pipeline).None? && RunStage(job, stage, now, w).Success?
    ensures var w' := RunStage(job, stage, now, w).value;
      && (w'.Work? <==> w.Work? || stage == StageDecode)
      && (w'.Work? && w'.checksum == "" ==> stage == StageDecode || (w.checksum == "" && stage != StageChecksum))
  {
  }

  lemma PendingStep<T>(job: Job<T>, stages: seq<AttemptStage>, w: Work<T>, now: nat)
    requires stages != [] && Pending(stages, w) && Validate(job.pipeline).None?
    requires RunStage(job, stages[0], now, w).Success?
    ensures Pending(stages[1..], RunStage(job, stages[0], now, w).value)
  {
    hide RunStage, Validate;
    StagePasses(job, stages[0], w, now);
    var rest := stages[1..];
    assert stages == [stages[0]] + rest;
    assert forall s | s in stages :: s == stages[0] || s in rest;
  }

  lemma {:induction false} RunStagesSound<T>(job: Job<T>, stages: seq<AttemptStage>, w: Work<T>, now: nat)
    requires Validate(job.pipeline).None? && Pending(stages, w)
    ensures Sound(RunStages(job, stages, w, now))
    decreases |stages|
  {
    hide FailAt, RunStage;
    if job.ctx.Err(now).Some? {
      FailAtSound(job, StageContext, job.ctx.Err(now).value, now + 1);
    } else if stages == [] {
      if job.ctx.Err(now + 1).Some? {
        FailAtSound(job, StageContext, job.ctx.Err(now + 1).value, now + 2);
      }
    } else {
      match RunStage(job, stages[0], now + 1, w)
      case Failure(e) =>
        FailAtSound(job, stages[0], e, now + 2);
      case Success(w') =>
        PendingStep(job, stages, w, now + 1);
        RunStagesSound(job, stages[1..], w', now + 2);
    }
  }

  lemma StageListPending<T>(p: Pipeline<T>)
    ensures Pending<T>(StageList(p), Blank)
  {
    var all := StageList(p);
    var n := |all|;
    assert all[1] == StageDecode && all[n - 1] == StageChecksum;
    assert forall i | 0 <= i < n - 1 :: all[i] != StageChecksum;
    assert forall i | 0 <= i < n && i != 1 :: all[i] != StageDecode;
  }

  /** Every result of `Load` satisfies the apply-time validator, and its error is nil exactly for a success. */
  lemma LoadAlwaysValidates<T>(job: Job<T>, now: nat)
    ensures Sound(LoadOutcome(job, now))
  {
    var all := StageList(job.pipeline);
    if Validate(job.pipeline).None? {
      StageListPending(job.pipeline);
      RunStagesSound(job, all, Blank, now);
    } else if job.ctx.Err(now).Some? {
      FailAtSound(job, StageContext, job.ctx.Err(now).value, now + 1);
    } else {
      assert all == [StagePipelineValidate] + all[1..];
      Unfold(job, all, StagePipelineValidate, all[1..], Blank, now);
      FailAtSound(job, StagePipelineValidate, Validate(job.pipeline).value, now + 2);
    }
  }

  lemma FailedReadSound<T>(kind: AttemptKind, metadata: SourceMetadata, startedAt: Time, endedAt: Time, e: Error,
                           end: nat)
    requires e != MissingSource
    ensures Sound(FailedRead<T>(kind, metadata, startedAt, endedAt, FailureFor(StageSourceRead, e), e, end))
  {
    assert FailureFor(StageSourceRead, e).code != CodeNone;
  }

  /** So does every result of a load from a source: absent, panicking, failing or readable. */
  lemma SourceLoadAlwaysValidates<T>(ctx: Context, clock: nat -> Time, kind: AttemptKind,
                                     source: Option<SourceBehaviour>, pipeline: Pipeline<T>,
                                     startedAt: Time, metadataAt: nat, now: nat)
    ensures Sound(SourceOutcome(ctx, clock, kind, source, pipeline, startedAt, metadataAt, now))
  {
    hide LoadOutcome, FailureFor;
    if source.Some? {
      hide Sound, FailedRead;
      match ReadMetadata(source.value, metadataAt)
      case Failure(e) => FailedReadSound<T>(kind, NO_METADATA, startedAt, clock(now), e, now + 1);
      case Success(metadata) =>
        match Recover("read config source", source.value.read(ctx, now))
        case Failure(e) =>
          var readError := StageError("read config source", e);
          FailedReadSound<T>(kind, metadata, startedAt, clock(now + 1), readError, now + 2);
        case Success(data) =>
          LoadAlwaysValidates(Job(ctx, clock, kind, WithSource(data, metadata), pipeline, startedAt), now + 1);
    }
  }

  // ---------------------------------------------------------------- what every record says

  /** The record is of this kind and start, it ended at some instant of the load, and a snapshot carries the
      time at which its load ended. */
  ghost predicate Stamped<T>(out: Loaded<T>, clock: nat -> Time, kind: AttemptKind, startedAt: Time, from: nat) {
    var attempt := out.result.attempt;
    && attempt.kind == kind && attempt.startedAt == startedAt
    && (exists m: nat :: from <= m < out.end && attempt.endedAt == clock(m))
    && (out.result.snapshot.Some? ==> out.result.snapshot.value.metadata.loadedAt == attempt.endedAt)
  }

  /** Whatever stops a load, its record says what was loaded, why and when. */
  lemma {:induction false} LoadIsStamped<T>(job: Job<T>, stages: seq<AttemptStage>, w: Work<T>, now: nat)
    ensures var out := RunStages(job, stages, w, now);
      && Stamped(out, job.clock, job.kind, job.startedAt, now)
      && out.result.attempt.source == job.data.metadata
      && out.result.attempt.revision == job.data.revision
      && (out.err.Some? ==> out.result.attempt.stage in [StageContext] + stages)
    decreases |stages|
  {
    hide RunStage;
    if job.ctx.Err(now).Some? {
      assert job.clock(now + 1) == RunStages(job, stages, w, now).result.attempt.endedAt;
    } else if stages == [] {
      assert job.clock(now + 2) == RunStages(job, stages, w, now).result.attempt.endedAt;
    } else {
      match RunStage(job, stages[0], now + 1, w)
      case Failure(e) =>
        assert job.clock(now + 2) == RunStages(job, stages, w, now).result.attempt.endedAt;
      case Success(w') =>
        LoadIsStamped(job, stages[1..], w', now + 2);
    }
  }

  /** A read that fails is recorded under the announced metadata and no revision; a load from a source is
      recorded under what the source read, or its own metadata where the data has none. */
  lemma SourceLoadIsStamped<T>(ctx: Context, clock: nat -> Time, kind: AttemptKind, source: Option<SourceBehaviour>,
                               pipeline: Pipeline<T>, startedAt: Time, metadataAt: nat, now: nat)
    ensures var out := SourceOutcome(ctx, clock, kind, source, pipeline, startedAt, metadataAt, now);
      && Stamped(out, clock, kind, startedAt, now)
      && (out.err.Some? && out.result.attempt.stage == StageSourceRead ==>
            out.result.attempt.source == AnnouncedMetadata(source, metadataAt) && out.result.attempt.revision == "")
      && (out.err.None? || out.result.attempt.stage != StageSourceRead ==>
            && source.Some?
            && var read := source.value.read(ctx, now);
               read.Ok? && out.result.attempt.revision == read.value.revision
               && out.result.attempt.source == (if read.value.metadata == NO_METADATA
                                                then AnnouncedMetadata(source, metadataAt) else read.value.metadata))
  {
    hide RunStages;
    var out := SourceOutcome(ctx, clock, kind, source, pipeline, startedAt, metadataAt, now);
    if source.None? || ReadMetadata(source.value, metadataAt).Failure? {
      assert clock(now) == out.result.attempt.endedAt;
    } else if !source.value.read(ctx, now).Ok? {
      assert clock(now + 1) == out.result.attempt.endedAt;
    } else {
      var data := WithSource(source.value.read(ctx, now).value, ReadMetadata(source.value, metadataAt).value);
      LoadIsStamped(Job(ctx, clock, kind, data, pipeline, startedAt), StageList(pipeline), Blank, now + 1);
    }
  }

  // ---------------------------------------------------------------- what a success contains

  /** A successful fold went through every prefix of its stages and finished on the rest of them. */
  lemma {:induction false} SuccessGoesThrough<T>(job: Job<T>, before: seq<AttemptStage>, after: seq<AttemptStage>,
                                                 w: Work<T>, now: nat)
    returns (w': Work<T>, now': nat)
    requires RunStages(job, before + after, w, now).err.None?
    ensures RunStages(job, before + after, w, now) == RunStages(job, after, w', now')
    ensures w.Work? || (StageDecode in before && Validate(job.pipeline).None?) ==> w'.Work?
    decreases |before|
  {
    if before == [] {
      assert before + after == after;
      w', now' := w, now;
    } else {
      var rest := before[1..];
      assert before + after == [before[0]] + (rest + after);
      Unfold(job, before + after, before[0], rest + after, w, now);
      w', now' := SuccessGoesThrough(job, rest, after, RunStage(job, before[0], now + 1, w).value, now + 2);
    }
  }

  /** The redacted view and the checksum of a published snapshot were computed from exactly the value
      in it, which is what `Copy` returned when the pipeline copies; its metadata is the data's own. */
  lemma PublishedFromOneValue<T>(job: Job<T>, now: nat)
    returns (redactedAt: nat, checksumAt: nat, copyAt: nat, source: T)
    requires LoadOutcome(job, now).err.None?
    ensures Validate(job.pipeline).None? && LoadOutcome(job, now).result.snapshot.Some?
    ensures var snapshot := LoadOutcome(job, now).result.snapshot.value;
      && job.pipeline.redact.value(job.ctx, redactedAt, snapshot.value) == Ok(snapshot.redacted)
      && job.pipeline.checksum.value(job.ctx, checksumAt, snapshot.value) == Ok(snapshot.metadata.checksum)
      && (job.pipeline.copy.Some? ==> job.pipeline.copy.value(job.ctx, copyAt, source) == Ok(snapshot.value))
      && snapshot.metadata.checksum != ""
      && snapshot.metadata.source == job.data.metadata
      && snapshot.metadata.revision == job.data.revision
  {
    hide RunStages, RunStage;
    var p := job.pipeline;
    var tail := [StageRedact, StageChecksum];
    var before := [StagePipelineValidate, StageDecode] + Optional(StageDefaults, p.applyDefaults.Some?)
                  + Optional(StageValidateConfig, p.validateConfig.Some?);
    var after := Optional(StageCopy, p.copy.Some?) + tail;
    assert StageList(p) == before + after;
    SuccessNeedsPipeline(job, now);
    var w, moment := SuccessGoesThrough(job, before, after, Blank, now);
    source, copyAt := w.value, moment + 1;
    if p.copy.Some? {
      w := CopyTail(job, w, moment);
      moment := moment + 2;
    } else {
      assert after == tail;
    }
    redactedAt, checksumAt := TailValues(job, w, moment);
  }

  lemma SuccessNeedsPipeline<T>(job: Job<T>, now: nat)
    requires LoadOutcome(job, now).err.None?
    ensures Validate(job.pipeline).None?
  {
    var all := StageList(job.pipeline);
    assert all == [StagePipelineValidate] + all[1..];
    if job.ctx.Err(now).None? {
      Unfold(job, all, StagePipelineValidate, all[1..], Blank, now);
    }
  }

  lemma CopyTail<T>(job: Job<T>, w: Work<T>, now: nat) returns (w': Work<T>)
    requires w.Work? && job.pipeline.copy.Some?
    requires RunStages(job, [StageCopy] + [StageRedact, StageChecksum], w, now).err.None?
    ensures RunStages(job, [StageCopy] + [StageRedact, StageChecksum], w, now)
         == RunStages(job, [StageRedact, StageChecksum], w', now + 2)
    ensures w'.Work? && job.pipeline.copy.value(job.ctx, now + 1, w.value) == Ok(w'.value)
  {
    var tail := [StageRedact, StageChecksum];
    Unfold(job, [StageCopy] + tail, StageCopy, tail, w, now);
    w' := RunStage(job, StageCopy, now + 1, w).value;
  }

  lemma TailValues<T>(job: Job<T>, w: Work<T>, now: nat) returns (redactedAt: nat, checksumAt: nat)
    requires w.Work? && Validate(job.pipeline).None?
    requires RunStages(job, [StageRedact, StageChecksum], w, now).err.None?
    ensures var result := RunStages(job, [StageRedact, StageChecksum], w, now).result;
      && result.snapshot.Some?
      && result.snapshot.value.value == w.value
      && job.pipeline.redact.value(job.ctx, redactedAt, w.value) == Ok(result.snapshot.value.redacted)
      && job.pipeline.checksum.value(job.ctx, checksumAt, w.value) == Ok(result.snapshot.value.metadata.checksum)
      && result.snapshot.value.metadata.checksum != ""
      && result.snapshot.value.metadata.source == job.data.metadata
      && result.snapshot.value.metadata.revision == job.data.revision
  {
    redactedAt, checksumAt := now + 1, now + 3;
    Unfold(job, [StageRedact, StageChecksum], StageRedact, [StageChecksum], w, now);
    var w1 := RunStage(job, StageRedact, now + 1, w).value;
    Unfold(job, [StageChecksum], StageChecksum, [], w1, now + 2);
    var w2 := RunStage(job, StageChecksum, now + 3, w1).value;
    assert RunStages(job, [], w2, now + 4).err.None?;
  }

  // ---------------------------------------------------------------- what a failure reveals

  /** Two outcomes that differ at most in the text of an error or the payload of a panic. */
  ghost predicate AlikeOutcomes<V>(a: Outcome<V>, b: Outcome<V>) {
    if a.Ok? || b.Ok? then a == b
    else SameClass(Recover("", a).error, Recover("", b).error)
  }

  ghost predicate AlikePipelines<T(!new)>(p: Pipeline<T>, q: Pipeline<T>) {
    && (p.decode.Some? <==> q.decode.Some?)
    && (p.applyDefaults.Some? <==> q.applyDefaults.Some?)
    && (p.validateConfig.Some? <==> q.validateConfig.Some?)
    && (p.redact.Some? <==> q.redact.Some?)
    && (p.checksum.Some? <==> q.checksum.Some?)
    && (p.copy.Some? <==> q.copy.Some?)
    && (p.decode.Some? ==> forall c, n, d :: AlikeOutcomes(p.decode.value(c, n, d), q.decode.value(c, n, d)))
    && (p.applyDefaults.Some? ==>
          forall c, n, v :: AlikeOutcomes(p.applyDefaults.value(c, n, v), q.applyDefaults.value(c, n, v)))
    && (p.validateConfig.Some? ==>
          forall c, n, v :: AlikeOutcomes(p.validateConfig.value(c, n, v), q.validateConfig.value(c, n, v)))
    && (p.redact.Some? ==> forall c, n, v :: AlikeOutcomes(p.redact.value(c, n, v), q.redact.value(c, n, v)))
    && (p.checksum.Some? ==> forall c, n, v :: AlikeOutcomes(p.checksum.value(c, n, v), q.checksum.value(c, n, v)))
    && (p.copy.Some? ==> forall c, n, v :: AlikeOutcomes(p.copy.value(c, n, v), q.copy.value(c, n, v)))
  }

  ghost predicate AlikeResults<V>(a: Result<V>, b: Result<V>) {
    if a.Success? || b.Success? then a == b else SameClass(a.error, b.error)
  }

  lemma AlikeCalls<V>(stage: AttemptStage, a: Outcome<V>, b: Outcome<V>)
    requires AlikeOutcomes(a, b)
    ensures AlikeResults(Call(stage, a), Call(stage, b))
  {
    if !a.Ok? {
      var e, f := Recover(Prefix(stage), a).error, Recover(Prefix(stage), b).error;
      ClassSurvivesWrapping(Prefix(stage), e);
      ClassSurvivesWrapping(Prefix(stage), f);
    }
  }

  lemma AlikeStages<T(!new)>(job: Job<T>, q: Pipeline<T>, stage: AttemptStage, now: nat, w: Work<T>)
    requires AlikePipelines(job.pipeline, q)
    ensures AlikeResults(RunStage(job, stage, now, w), RunStage(job.(pipeline := q), stage, now, w))
  {
    hide Call, AlikeOutcomes, Is;
    var p, c := job.pipeline, job.ctx;
    match (stage, w)
    case (StageDecode, _) =>
      if p.decode.Some? {
        AlikeCalls(stage, p.decode.value(c, now, job.data), q.decode.value(c, now, job.data));
      }
    case (StageDefaults, Work(value, _, _)) =>
      if p.applyDefaults.Some? {
        AlikeCalls(stage, p.applyDefaults.value(c, now, value), q.applyDefaults.value(c, now, value));
      }
    case (StageValidateConfig, Work(value, _, _)) =>
      if p.validateConfig.Some? {
        AlikeCalls(stage, p.validateConfig.value(c, now, value), q.validateConfig.value(c, now, value));
      }
    case (StageCopy, Work(value, _, _)) =>
      if p.copy.Some? {
        AlikeCalls(stage, p.copy.value(c, now, value), q.copy.value(c, now, value));
      }
    case (StageRedact, Work(value, _, _)) =>
      if p.redact.Some? {
        AlikeCalls(stage, p.redact.value(c, now, value), q.redact.value(c, now, value));
      }
    case (StageChecksum, Work(value, _, _)) =>
      if p.checksum.Some? {
        AlikeChecksums(p.checksum.value(c, now, value), q.checksum.value(c, now, value));
      }
    case _ =>
  }

  lemma AlikeChecksums(a: Outcome<string>, b: Outcome<string>)
    requires AlikeOutcomes(a, b)
    ensures AlikeResults(Call(StageChecksum, NonEmptyChecksum(a)), Call(StageChecksum, NonEmptyChecksum(b)))
  {
    AlikeCalls(StageChecksum, NonEmptyChecksum(a), NonEmptyChecksum(b));
  }

  /** What leaves a load for the records, the events and the operators. */
  ghost predicate AlikeLoads<T>(a: Loaded<T>, b: Loaded<T>) {
    && a.result == b.result
    && a.end == b.end
    && (a.err.Some? <==> b.err.Some?)
    && (a.err.Some? ==> SameClass(a.err.value, b.err.value))
  }

  /** Error texts and panic payloads never reach the result: pipelines that differ only in them
      produce the same load result, stage, failure and timestamps included. */
  lemma {:induction false} AlikeFolds<T(!new)>(job: Job<T>, q: Pipeline<T>, stages: seq<AttemptStage>,
                                               w: Work<T>, now: nat)
    requires AlikePipelines(job.pipeline, q)
    ensures AlikeLoads(RunStages(job, stages, w, now), RunStages(job.(pipeline := q), stages, w, now))
    decreases |stages|
  {
    hide RunStage, AlikePipelines, Is;
    if job.ctx.Err(now).None? && stages != [] {
      AlikeStages(job, q, stages[0], now + 1, w);
      match RunStage(job, stages[0], now + 1, w)
      case Failure(_) =>
      case Success(w') => AlikeFolds(job, q, stages[1..], w', now + 2);
    }
  }

  lemma AlikeOutcomesOfLoad<T(!new)>(job: Job<T>, q: Pipeline<T>, now: nat)
    requires AlikePipelines(job.pipeline, q)
    ensures AlikeLoads(LoadOutcome(job, now), LoadOutcome(job.(pipeline := q), now))
  {
    assert StageList(job.pipeline) == StageList(q);
    AlikeFolds(job, q, StageList(q), Blank, now);
  }

  ghost predicate AlikeSources(a: Option<SourceBehaviour>, b: Option<SourceBehaviour>) {
    && (a.Some? <==> b.Some?)
    && (a.Some? ==> forall n ::
          a.value.metadata(n) == b.value.metadata(n)
          || (a.value.metadata(n).MetadataPanic? && b.value.metadata(n).MetadataPanic?))
    && (a.Some? ==> forall c, n :: AlikeOutcomes(a.value.read(c, n), b.value.read(c, n)))
  }

  lemma AlikeSourceLoads<T(!new)>(ctx: Context, clock: nat -> Time, kind: AttemptKind,
                                  a: Option<SourceBehaviour>, b: Option<SourceBehaviour>,
                                  p: Pipeline<T>, q: Pipeline<T>, startedAt: Time, metadataAt: nat, now: nat)
    requires AlikeSources(a, b) && AlikePipelines(p, q)
    ensures AlikeLoads(SourceOutcome(ctx, clock, kind, a, p, startedAt, metadataAt, now),
                       SourceOutcome(ctx, clock, kind, b, q, startedAt, metadataAt, now))
  {
    hide LoadOutcome, AlikePipelines, Is;
    if a.Some? && ReadMetadata(a.value, metadataAt).Success? {
      assert a.value.metadata(metadataAt) == b.value.metadata(metadataAt);
      var metadata := ReadMetadata(a.value, metadataAt).value;
      assert AlikeOutcomes(a.value.read(ctx, now), b.value.read(ctx, now));
      match a.value.read(ctx, now)
      case Ok(data) =>
        AlikeOutcomesOfLoad(Job(ctx, clock, kind, WithSource(data, metadata), p, startedAt), q, now + 1);
      case _ =>
        AlikeReads(a.value.read(ctx, now), b.value.read(ctx, now));
    }
  }

  lemma AlikeReads(a: Outcome<SourceData>, b: Outcome<SourceData>)
    requires AlikeOutcomes(a, b) && !a.Ok?
    ensures Recover("read config source", a).Failure? && Recover("read config source", b).Failure?
    ensures SameClass(StageError("read config source", Recover("read config source", a).error),
                      StageError("read config source", Recover("read config source", b).error))
  {
    ClassSurvivesWrapping("read config source", Recover("read config source", a).error);
    ClassSurvivesWrapping("read config source", Recover("read config source", b).error);
  }
}
