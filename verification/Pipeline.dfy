/** The stateless load lifecycle: pipeline validation, decode, defaults, validation, copy,
    redaction and checksum, with a context check around every stage, and the source read in
    front of it.

    `RunStages` is the specification: one generic fold over the list of stages the pipeline has.
    `Load` is the program, stage by stage, and returns exactly what the fold returns. */
module Pipelines {
  import opened Core
  import opened Errors

  datatype SourceData = SourceData(data: seq<bv8>, metadata: SourceMetadata, revision: string)

  /** Every user step sees the context and the moment it is called at, so its behaviour may change
      over time in any way. `None` is a nil function. */
  datatype Pipeline<!T> = Pipeline(
    decode: Option<(Context, nat, SourceData) -> Outcome<T>>,
    applyDefaults: Option<(Context, nat, T) -> Outcome<T>>,
    validateConfig: Option<(Context, nat, T) -> Outcome<()>>,
    redact: Option<(Context, nat, T) -> Outcome<RedactedView>>,
    checksum: Option<(Context, nat, T) -> Outcome<string>>,
    copy: Option<(Context, nat, T) -> Outcome<T>>
  )

  /** `Pipeline.Validate`. */
  function Validate<T>(p: Pipeline<T>): Option<Error> {
    if p.decode.None? then Some(MissingDecoder)
    else if p.redact.None? then Some(MissingRedactor)
    else if p.checksum.None? then Some(MissingChecksum)
    else None
  }

  /** A source's own behaviour. `Metadata` has no error result: it returns or panics. */
  datatype MetadataOutcome = Described(metadata: SourceMetadata) | MetadataPanic(payload: int)

  datatype SourceBehaviour = SourceBehaviour(
    metadata: nat -> MetadataOutcome,
    read: (Context, nat) -> Outcome<SourceData>
  )

  /** The arguments of one load, with the clock it reads. */
  datatype Job<!T> = Job(
    ctx: Context,
    clock: nat -> Time,
    kind: AttemptKind,
    data: SourceData,
    pipeline: Pipeline<T>,
    startedAt: Time
  )

  /** What a load returns, and the first moment after it. */
  datatype Loaded<+T> = Loaded(result: LoadResult<T>, err: Option<Error>, end: nat)

  function FailedAttempt(kind: AttemptKind, stage: AttemptStage, source: SourceMetadata, revision: string,
                         startedAt: Time, endedAt: Time, failure: FailureDetail): AttemptRecord
  {
    AttemptRecord(0, kind, StatusFailed, stage, source, revision, "", startedAt, endedAt, Some(failure))
  }

  function FailAt<T>(job: Job<T>, stage: AttemptStage, e: Error, now: nat): Loaded<T> {
    var attempt := FailedAttempt(job.kind, stage, job.data.metadata, job.data.revision,
                                 job.startedAt, job.clock(now), FailureFor(stage, e));
    Loaded(LoadResult(None, attempt), Some(e), now + 1)
  }

  // ---------------------------------------------------------------- the fold

  /** What the stages so far have produced. */
  datatype Work<+T> = Blank | Work(value: T, redacted: RedactedView, checksum: string)

  function Optional(stage: AttemptStage, present: bool): seq<AttemptStage> {
    if present then [stage] else []
  }

  /** The stages a load of this pipeline goes through, in order. */
  function StageList<T>(p: Pipeline<T>): seq<AttemptStage> {
    [StagePipelineValidate, StageDecode]
    + Optional(StageDefaults, p.applyDefaults.Some?)
    + Optional(StageValidateConfig, p.validateConfig.Some?)
    + Optional(StageCopy, p.copy.Some?)
    + [StageRedact, StageChecksum]
  }

  function Prefix(stage: AttemptStage): string {
    match stage
    case StageDecode => "decode config"
    case StageDefaults => "apply config defaults"
    case StageValidateConfig => "validate config"
    case StageCopy => "copy config"
    case StageRedact => "redact config"
    case StageChecksum => "checksum config"
    case _ => ""
  }

  /** Calls a step: panics are recovered, errors get the stage prefix. */
  function Call<V>(stage: AttemptStage, outcome: Outcome<V>): Result<V> {
    match Recover(Prefix(stage), outcome)
    case Success(v) => Success(v)
    case Failure(e) => Failure(StageError(Prefix(stage), e))
  }

  /** `checksumConfig`: an empty checksum is an error too. */
  function NonEmptyChecksum(outcome: Outcome<string>): Outcome<string> {
    if outcome == Ok("") then Err(EmptyChecksum) else outcome
  }

  function RunStage<T>(job: Job<T>, stage: AttemptStage, now: nat, w: Work<T>): Result<Work<T>> {
    var p := job.pipeline;
    match (stage, w)
    case (StagePipelineValidate, _) =>
      (match Validate(p) case None => Success(w) case Some(e) => Failure(e))
    case (StageDecode, _) =>
      if p.decode.None? then Success(w) else
      (match Call(stage, p.decode.value(job.ctx, now, job.data))
       case Success(v) => Success(Work(v, None, ""))
       case Failure(e) => Failure(e))
    case (StageDefaults, Work(value, _, _)) =>
      if p.applyDefaults.None? then Success(w) else
      (match Call(stage, p.applyDefaults.value(job.ctx, now, value))
       case Success(v) => Success(w.(value := v))
       case Failure(e) => Failure(e))
    case (StageValidateConfig, Work(value, _, _)) =>
      if p.validateConfig.None? then Success(w) else
      (match Call(stage, p.validateConfig.value(job.ctx, now, value))
       case Success(_) => Success(w)
       case Failure(e) => Failure(e))
    case (StageCopy, Work(value, _, _)) =>
      if p.copy.None? then Success(w) else
      (match Call(stage, p.copy.value(job.ctx, now, value))
       case Success(v) => Success(w.(value := v))
       case Failure(e) => Failure(e))
    case (StageRedact, Work(value, _, _)) =>
      if p.redact.None? then Success(w) else
      (match Call(stage, p.redact.value(job.ctx, now, value))
       case Success(view) => Success(w.(redacted := view))
       case Failure(e) => Failure(e))
    case (StageChecksum, Work(value, _, _)) =>
      if p.checksum.None? then Success(w) else
      (match Call(stage, NonEmptyChecksum(p.checksum.value(job.ctx, now, value)))
       case Success(sum) => Success(w.(checksum := sum))
       case Failure(e) => Failure(e))
    case _ => Success(w)
  }

  function Succeed<T>(job: Job<T>, w: Work<T>, now: nat): Loaded<T> {
    var endedAt := job.clock(now);
    var checksum := if w.Work? then w.checksum else "";
    var metadata := SnapshotMetadata(job.data.metadata, job.data.revision, checksum, endedAt);
    var snapshot := if w.Work? then Some(Snapshot(w.value, metadata, w.redacted)) else None;
    var attempt := AttemptRecord(0, job.kind, StatusSucceeded, StageNone, job.data.metadata, job.data.revision,
                                 checksum, job.startedAt, endedAt, None);
    Loaded(LoadResult(snapshot, attempt), None, now + 1)
  }

  /** Check the context; run the next stage; go on. After the last stage check twice, then publish. */
  function RunStages<T>(job: Job<T>, stages: seq<AttemptStage>, w: Work<T>, now: nat): Loaded<T> {
    if job.ctx.Err(now).Some? then FailAt(job, StageContext, job.ctx.Err(now).value, now + 1)
    else if stages == [] then
      if job.ctx.Err(now + 1).Some? then FailAt(job, StageContext, job.ctx.Err(now + 1).value, now + 2)
      else Succeed(job, w, now + 2)
    else
      match RunStage(job, stages[0], now + 1, w)
      case Failure(e) => FailAt(job, stages[0], e, now + 2)
      case Success(w') => RunStages(job, stages[1..], w', now + 2)
  }

  function LoadOutcome<T>(job: Job<T>, now: nat): Loaded<T> {
    RunStages(job, StageList(job.pipeline), Blank, now)
  }

  // ---------------------------------------------------------------- the program

  /** One unfolding of the fold, at a stage: one that passes hands over to the rest of the list. */
  lemma Unfold<T>(job: Job<T>, stages: seq<AttemptStage>, stage: AttemptStage, rest: seq<AttemptStage>,
                  w: Work<T>, now: nat)
    requires job.ctx.Err(now).None? && stages == [stage] + rest
    ensures RunStages(job, stages, w, now) ==
            match RunStage(job, stage, now + 1, w)
            case Failure(e) => FailAt(job, stage, e, now + 2)
            case Success(w') => RunStages(job, rest, w', now + 2)
  {
    assert stages[1..] == rest;
  }

  /** `checkContext`: the ghost arguments name the part of the fold that is left at this check. */
  method CheckContext<T>(job: Job<T>, ghost rest: seq<AttemptStage>, ghost w: Work<T>, now: nat)
    returns (stopped: Option<Loaded<T>>)
    ensures stopped.Some? ==> stopped.value == RunStages(job, rest, w, now)
    ensures stopped.None? <==> job.ctx.Err(now).None?
  {
    var e := job.ctx.Err(now);
    stopped := if e.Some? then Some(FailAt(job, StageContext, e.value, now + 1)) else None;
  }

  method Load<T>(job: Job<T>, now: nat) returns (out: Loaded<T>)
    ensures out == LoadOutcome(job, now)
  {
    hide RunStages, FailAt;
    var p := job.pipeline;
    ghost var tail := [StageRedact, StageChecksum];
    ghost var fromCopy := Optional(StageCopy, p.copy.Some?) + tail;
    ghost var fromValidate := Optional(StageValidateConfig, p.validateConfig.Some?) + fromCopy;
    ghost var fromDefaults := Optional(StageDefaults, p.applyDefaults.Some?) + fromValidate;
    ghost var all := StageList(p);
    assert all == [StagePipelineValidate] + ([StageDecode] + fromDefaults);

    var stopped := CheckContext(job, all, Blank, now);
    if stopped.Some? { return stopped.value; }
    Unfold(job, all, StagePipelineValidate, [StageDecode] + fromDefaults, Blank, now);

    var invalid := Validate(p);
    if invalid.Some? { return FailAt(job, StagePipelineValidate, invalid.value, now + 2); }
    stopped := CheckContext(job, [StageDecode] + fromDefaults, Blank, now + 2);
    if stopped.Some? { return stopped.value; }
    Unfold(job, [StageDecode] + fromDefaults, StageDecode, fromDefaults, Blank, now + 2);

    var decoded := Recover("decode config", p.decode.value(job.ctx, now + 3, job.data));
    if decoded.Failure? {
      return FailAt(job, StageDecode, StageError("decode config", decoded.error), now + 4);
    }
    stopped := CheckContext(job, fromDefaults, Work(decoded.value, None, ""), now + 4);
    if stopped.Some? { return stopped.value; }
    out := LoadDecoded(job, decoded.value, fromDefaults, fromValidate, now + 4);
  }

  /** `load` from the optional defaults stage on. */
  method LoadDecoded<T>(job: Job<T>, decoded: T, ghost stages: seq<AttemptStage>, ghost rest: seq<AttemptStage>,
                        now: nat)
    returns (out: Loaded<T>)
    requires Validate(job.pipeline).None? && job.ctx.Err(now).None?
    requires rest == Optional(StageValidateConfig, job.pipeline.validateConfig.Some?)
                     + (Optional(StageCopy, job.pipeline.copy.Some?) + [StageRedact, StageChecksum])
    requires stages == Optional(StageDefaults, job.pipeline.applyDefaults.Some?) + rest
    ensures out == RunStages(job, stages, Work(decoded, None, ""), now)
  {
    hide RunStages, FailAt;
    var p := job.pipeline;
    var value := decoded;
    var moment := now;
    if p.applyDefaults.Some? {
      Unfold(job, stages, StageDefaults, rest, Work(value, None, ""), now);
      var defaulted := Recover("apply config defaults", p.applyDefaults.value(job.ctx, now + 1, value));
      if defaulted.Failure? {
        return FailAt(job, StageDefaults, StageError("apply config defaults", defaulted.error), now + 2);
      }
      value := defaulted.value;
      moment := now + 2;
      var stopped := CheckContext(job, rest, Work(value, None, ""), moment);
      if stopped.Some? { return stopped.value; }
    } else {
      assert stages == rest;
    }
    out := LoadDefaulted(job, value, rest, Optional(StageCopy, p.copy.Some?) + [StageRedact, StageChecksum], moment);
  }

  /** `load` from the optional validation stage on. */
  method LoadDefaulted<T>(job: Job<T>, value: T, ghost stages: seq<AttemptStage>, ghost rest: seq<AttemptStage>,
                          now: nat)
    returns (out: Loaded<T>)
    requires Validate(job.pipeline).None? && job.ctx.Err(now).None?
    requires rest == Optional(StageCopy, job.pipeline.copy.Some?) + [StageRedact, StageChecksum]
    requires stages == Optional(StageValidateConfig, job.pipeline.validateConfig.Some?) + rest
    ensures out == RunStages(job, stages, Work(value, None, ""), now)
  {
    hide RunStages, FailAt;
    var p := job.pipeline;
    var moment := now;
    if p.validateConfig.Some? {
      Unfold(job, stages, StageValidateConfig, rest, Work(value, None, ""), now);
      var validated := Recover("validate config", p.validateConfig.value(job.ctx, now + 1, value));
      if validated.Failure? {
        return FailAt(job, StageValidateConfig, StageError("validate config", validated.error), now + 2);
      }
      moment := now + 2;
      var stopped := CheckContext(job, rest, Work(value, None, ""), moment);
      if stopped.Some? { return stopped.value; }
    } else {
      assert stages == rest;
    }

    var snapshotValue := value;
    if p.copy.Some? {
      Unfold(job, rest, StageCopy, [StageRedact, StageChecksum], Work(value, None, ""), moment);
      var copied := Recover("copy config", p.copy.value(job.ctx, moment + 1, value));
      if copied.Failure? {
        return FailAt(job, StageCopy, StageError("copy config", copied.error), moment + 2);
      }
      snapshotValue := copied.value;
      moment := moment + 2;
      var stopped := CheckContext(job, [StageRedact, StageChecksum], Work(snapshotValue, None, ""), moment);
      if stopped.Some? { return stopped.value; }
    } else {
      assert rest == [StageRedact, StageChecksum];
    }
    out := LoadCopied(job, snapshotValue, moment);
  }

  /** The last two stages of `load`, and the construction of its successful result. */
  method LoadCopied<T>(job: Job<T>, snapshotValue: T, now: nat) returns (out: Loaded<T>)
    requires Validate(job.pipeline).None? && job.ctx.Err(now).None?
    ensures out == RunStages(job, [StageRedact, StageChecksum], Work(snapshotValue, None, ""), now)
  {
    hide RunStages, FailAt;
    var p := job.pipeline;
    Unfold(job, [StageRedact, StageChecksum], StageRedact, [StageChecksum], Work(snapshotValue, None, ""), now);
    var redacted := Recover("redact config", p.redact.value(job.ctx, now + 1, snapshotValue));
    if redacted.Failure? {
      return FailAt(job, StageRedact, StageError("redact config", redacted.error), now + 2);
    }
    var stopped := CheckContext(job, [StageChecksum], Work(snapshotValue, redacted.value, ""), now + 2);
    if stopped.Some? { return stopped.value; }

    Unfold(job, [StageChecksum], StageChecksum, [], Work(snapshotValue, redacted.value, ""), now + 2);
    var checksum := Recover("checksum config", p.checksum.value(job.ctx, now + 3, snapshotValue));
    if checksum.Failure? {
      return FailAt(job, StageChecksum, StageError("checksum config", checksum.error), now + 4);
    }
    if checksum.value == "" {
      return FailAt(job, StageChecksum, StageError("checksum config", EmptyChecksum), now + 4);
    }
    out := Publish(job, snapshotValue, redacted.value, checksum.value, now + 4);
  }

  /** The two last context checks, and the snapshot. */
  method Publish<T>(job: Job<T>, snapshotValue: T, redacted: RedactedView, checksum: string, now: nat)
    returns (out: Loaded<T>)
    ensures out == RunStages(job, [], Work(snapshotValue, redacted, checksum), now)
  {
    var e := job.ctx.Err(now);
    if e.Some? { return FailAt(job, StageContext, e.value, now + 1); }
    e := job.ctx.Err(now + 1);
    if e.Some? { return FailAt(job, StageContext, e.value, now + 2); }

    var endedAt := job.clock(now + 2);
    var metadata := SnapshotMetadata(job.data.metadata, job.data.revision, checksum, endedAt);
    var snapshot := Snapshot(snapshotValue, metadata, redacted);
    var attempt := AttemptRecord(0, job.kind, StatusSucceeded, StageNone, job.data.metadata, job.data.revision,
                                 checksum, job.startedAt, endedAt, None);
    out := Loaded(LoadResult(Some(snapshot), attempt), None, now + 3);
  }

  // ---------------------------------------------------------------- reading a source

  /** `loadSourceMetadata`: a panic is the only way to fail. */
  function ReadMetadata(source: SourceBehaviour, now: nat): Result<SourceMetadata> {
    match source.metadata(now)
    case Described(metadata) => Success(metadata)
    case MetadataPanic(_) => Failure(PanicError("read config source metadata"))
  }

  /** The metadata a managed load announces: empty without a source, and when reading it panicked. */
  function AnnouncedMetadata(source: Option<SourceBehaviour>, now: nat): SourceMetadata {
    if source.None? || ReadMetadata(source.value, now).Failure? then NO_METADATA
    else ReadMetadata(source.value, now).value
  }

  function FailedRead<T>(kind: AttemptKind, metadata: SourceMetadata, startedAt: Time, endedAt: Time,
                         failure: FailureDetail, e: Error, end: nat): Loaded<T>
  {
    Loaded(LoadResult(None, FailedAttempt(kind, StageSourceRead, metadata, "", startedAt, endedAt, failure)),
           Some(e), end)
  }

  /** Data that does not describe its source inherits the source's own metadata. */
  function WithSource(data: SourceData, metadata: SourceMetadata): SourceData {
    if data.metadata == NO_METADATA then data.(metadata := metadata) else data
  }

  /** The loads that `source` leads to, given the moment its metadata was read at. */
  function SourceOutcome<T>(ctx: Context, clock: nat -> Time, kind: AttemptKind, source: Option<SourceBehaviour>,
                            pipeline: Pipeline<T>, startedAt: Time, metadataAt: nat, now: nat): Loaded<T>
  {
    if source.None? then
      FailedRead(kind, NO_METADATA, startedAt, clock(now),
                 FailureDetail(CodeMissingSource, "config source is missing"), MissingSource, now + 1)
    else
      match ReadMetadata(source.value, metadataAt)
      case Failure(e) =>
        FailedRead(kind, NO_METADATA, startedAt, clock(now), FailureFor(StageSourceRead, e), e, now + 1)
      case Success(metadata) =>
        match Recover("read config source", source.value.read(ctx, now))
        case Failure(e) =>
          var readError := StageError("read config source", e);
          FailedRead(kind, metadata, startedAt, clock(now + 1), FailureFor(StageSourceRead, readError),
                     readError, now + 2)
        case Success(data) =>
          LoadOutcome(Job(ctx, clock, kind, WithSource(data, metadata), pipeline, startedAt), now + 1)
  }

  // ---------------------------------------------------------------- what the fold does

  /** The work after `k` stages, if none of them failed. Stage `i` runs at moment `now + 2 i + 1`. */
  function WorkAfter<T>(job: Job<T>, stages: seq<AttemptStage>, w: Work<T>, now: nat, k: nat): Work<T>
    requires k <= |stages|
  {
    if k == 0 then w
    else
      var before := WorkAfter(job, stages, w, now, k - 1);
      match RunStage(job, stages[k - 1], now + 2 * k - 1, before)
      case Success(after) => after
      case Failure(_) => before
  }

  /** No context check and no stage among the first `k` stopped the load. */
  ghost predicate CleanThrough<T>(job: Job<T>, stages: seq<AttemptStage>, w: Work<T>, now: nat, k: nat)
    requires k <= |stages|
  {
    forall i | 0 <= i < k ::
      && job.ctx.Err(now + 2 * i).None?
      && RunStage(job, stages[i], now + 2 * i + 1, WorkAfter(job, stages, w, now, i)).Success?
  }

  lemma {:induction false} WorkAfterShift<T>(job: Job<T>, stages: seq<AttemptStage>, w: Work<T>, now: nat, k: nat)
    requires 0 < k <= |stages| && RunStage(job, stages[0], now + 1, w).Success?
    ensures WorkAfter(job, stages, w, now, k)
         == WorkAfter(job, stages[1..], RunStage(job, stages[0], now + 1, w).value, now + 2, k - 1)
  {
    hide RunStage;
    if k == 1 {
      assert WorkAfter(job, stages, w, now, 0) == w;
    } else {
      WorkAfterShift(job, stages, w, now, k - 1);
      assert now + 2 * k - 1 == (now + 2) + 2 * (k - 1) - 1;
      assert stages[1..][k - 2] == stages[k - 1];
    }
  }

  lemma CleanThroughShift<T>(job: Job<T>, stages: seq<AttemptStage>, w: Work<T>, now: nat, k: nat)
    requires 0 < k <= |stages| && CleanThrough(job, stages, w, now, k)
    ensures job.ctx.Err(now).None? && RunStage(job, stages[0], now + 1, w).Success?
    ensures CleanThrough(job, stages[1..], RunStage(job, stages[0], now + 1, w).value, now + 2, k - 1)
  {
    hide RunStage;
    assert job.ctx.Err(now + 2 * 0).None?;
    assert RunStage(job, stages[0], now + 2 * 0 + 1, WorkAfter(job, stages, w, now, 0)).Success?;
    var w' := RunStage(job, stages[0], now + 1, w).value;
    forall i | 0 <= i < k - 1
      ensures job.ctx.Err(now + 2 + 2 * i).None?
      ensures RunStage(job, stages[1..][i], now + 2 + 2 * i + 1, WorkAfter(job, stages[1..], w', now + 2, i)).Success?
    {
      WorkAfterShift(job, stages, w, now, i + 1);
      assert job.ctx.Err(now + 2 * (i + 1)).None?;
      assert stages[1..][i] == stages[i + 1];
    }
  }

  lemma StopsHere<T>(job: Job<T>, stages: seq<AttemptStage>, w: Work<T>, now: nat)
    ensures job.ctx.Err(now).Some? ==>
      RunStages(job, stages, w, now) == FailAt(job, StageContext, job.ctx.Err(now).value, now + 1)
    ensures stages != [] && job.ctx.Err(now).None? ==>
      var r := RunStage(job, stages[0], now + 1, w);
      r.Failure? ==> RunStages(job, stages, w, now) == FailAt(job, stages[0], r.error, now + 2)
    ensures stages == [] && job.ctx.Err(now).None? ==>
      RunStages(job, stages, w, now) ==
      if job.ctx.Err(now + 1).Some? then FailAt(job, StageContext, job.ctx.Err(now + 1).value, now + 2)
      else Succeed(job, w, now + 2)
  {
    hide RunStage, FailAt, Succeed;
  }

  /** Stages that passed leave the rest of the fold to be done. */
  lemma {:induction false} CleanStagesPass<T>(job: Job<T>, stages: seq<AttemptStage>, w: Work<T>, now: nat, k: nat)
    requires k <= |stages| && CleanThrough(job, stages, w, now, k)
    ensures RunStages(job, stages, w, now)
         == RunStages(job, stages[k..], WorkAfter(job, stages, w, now, k), now + 2 * k)
    decreases k
  {
    hide RunStage, FailAt, Succeed, RunStages;
    if k > 0 {
      hide CleanThrough;
      CleanThroughShift(job, stages, w, now, k);
      var w' := RunStage(job, stages[0], now + 1, w).value;
      Unfold(job, stages, stages[0], stages[1..], w, now);
      CleanStagesPass(job, stages[1..], w', now + 2, k - 1);
      WorkAfterShift(job, stages, w, now, k);
      assert now + 2 + 2 * (k - 1) == now + 2 * k;
      assert stages[1..][k - 1..] == stages[k..];
    }
  }

  /** A load reports the first context check or stage that stops it, and publishes exactly the work
      of all its stages when nothing does. The three cases are exclusive and cover every load. */
  lemma FirstStopDecides<T>(job: Job<T>, stages: seq<AttemptStage>, w: Work<T>, now: nat, k: nat)
    requires k <= |stages| && CleanThrough(job, stages, w, now, k)
    ensures job.ctx.Err(now + 2 * k).Some? ==>
      RunStages(job, stages, w, now) == FailAt(job, StageContext, job.ctx.Err(now + 2 * k).value, now + 2 * k + 1)
    ensures k < |stages| && job.ctx.Err(now + 2 * k).None? ==>
      var r := RunStage(job, stages[k], now + 2 * k + 1, WorkAfter(job, stages, w, now, k));
      r.Failure? ==> RunStages(job, stages, w, now) == FailAt(job, stages[k], r.error, now + 2 * k + 2)
    ensures k == |stages| && job.ctx.Err(now + 2 * k).None? ==>
      RunStages(job, stages, w, now) ==
      if job.ctx.Err(now + 2 * k + 1).Some?
      then FailAt(job, StageContext, job.ctx.Err(now + 2 * k + 1).value, now + 2 * k + 2)
      else Succeed(job, WorkAfter(job, stages, w, now, k), now + 2 * k + 2)
  {
    hide RunStage, FailAt, Succeed, RunStages, CleanThrough;
    CleanStagesPass(job, stages, w, now, k);
    StopsHere(job, stages[k..], WorkAfter(job, stages, w, now, k), now + 2 * k);
  }
}
