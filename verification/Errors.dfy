/** Errors as finite trees, contexts, and the classification of an error into public failure
    detail. `Is` and `IsPanic` are Go's `errors.Is` and `errors.As` for `*lifecyclePanicError`. */
module Errors {
  import opened Core

  datatype Error =
    | Canceled
    | DeadlineExceeded
    | MissingSource
    | MissingDecoder
    | MissingRedactor
    | MissingChecksum
    | InvalidLoadResult
    | EmptyChecksum
    | LifecyclePanicked
    // *lifecyclePanicError: the recovered payload is dropped, only the prefix is kept
    | PanicError(prefix: string)
    // fmt.Errorf("...: %w", inner)
    | Wrap(text: string, inner: Error)
    // errors.Join, or several %w verbs
    | Join(text: string, inners: seq<Error>)
    | OtherError(text: string)

  predicate Is(e: Error, target: Error) {
    || e == target
    || match e
       case PanicError(_) => target == LifecyclePanicked
       case Wrap(_, inner) => Is(inner, target)
       case Join(_, inners) => exists i | 0 <= i < |inners| :: Is(inners[i], target)
       case _ => false
  }

  predicate IsPanic(e: Error) {
    match e
    case PanicError(_) => true
    case Wrap(_, inner) => IsPanic(inner)
    case Join(_, inners) => exists i | 0 <= i < |inners| :: IsPanic(inners[i])
    case _ => false
  }

  /** The errors that unwrapping leads to, the error itself among them. */
  ghost function Unwrapped(e: Error): set<Error> {
    {e} + match e
          case PanicError(_) => {LifecyclePanicked}
          case Wrap(_, inner) => Unwrapped(inner)
          case Join(_, inners) => set i, x | 0 <= i < |inners| && x in Unwrapped(inners[i]) :: x
          case _ => {}
  }

  /** `errors.Is` looks for its target everywhere in the chain. */
  lemma {:induction false} IsIsMembership(e: Error, target: Error)
    ensures Is(e, target) <==> target in Unwrapped(e)
  {
    match e
    case Wrap(_, inner) => IsIsMembership(inner, target);
    case Join(_, inners) =>
      forall i | 0 <= i < |inners| ensures Is(inners[i], target) <==> target in Unwrapped(inners[i]) {
        IsIsMembership(inners[i], target);
      }
    case _ =>
  }

  /** So does `errors.As` for a recovered panic. */
  lemma {:induction false} IsPanicIsMembership(e: Error)
    ensures IsPanic(e) <==> exists x :: x in Unwrapped(e) && x.PanicError?
  {
    match e
    case Wrap(_, inner) => IsPanicIsMembership(inner);
    case Join(_, inners) =>
      forall i | 0 <= i < |inners|
        ensures IsPanic(inners[i]) <==> exists x :: x in Unwrapped(inners[i]) && x.PanicError?
      {
        IsPanicIsMembership(inners[i]);
      }
    case PanicError(_) => assert e in Unwrapped(e);
    case _ =>
  }

  /** `pipelineStageError` and `sourceReadError`: add the stage prefix unless a recovered panic
      is already part of the chain. */
  function StageError(prefix: string, e: Error): Error {
    if IsPanic(e) then e else Wrap(prefix, e)
  }

  /** The wrapper adds itself to what the chain matches, and nothing else. */
  lemma {:induction false} StageErrorPreservesIs(prefix: string, e: Error, target: Error)
    ensures Is(StageError(prefix, e), target) <==> Is(e, target) || target == StageError(prefix, e)
    ensures IsPanic(StageError(prefix, e)) <==> IsPanic(e)
  {
    assert Is(Wrap(prefix, e), target) <==> Wrap(prefix, e) == target || Is(e, target);
    assert Is(e, e);
  }

  /** A context is done from one moment on, with one cause: Go contexts never change or forget
      their error. Moments order the instants at which a run samples contexts and clocks. */
  datatype Context = Context(doneFrom: Option<nat>, cause: Error) {
    function Err(now: nat): Option<Error> {
      if doneFrom.Some? && doneFrom.value <= now then Some(cause) else None
    }

    /** The two causes the standard library's contexts report. */
    predicate Standard() {
      cause == Canceled || cause == DeadlineExceeded
    }
  }

  /** A user-supplied step returns a value, returns an error, or panics. */
  datatype Outcome<+V> = Ok(value: V) | Err(error: Error) | Panic(payload: int)

  /** A call whose panic has been recovered. */
  datatype Result<+V> = Success(value: V) | Failure(error: Error)

  function Recover<V>(prefix: string, outcome: Outcome<V>): Result<V> {
    match outcome
    case Ok(v) => Success(v)
    case Err(e) => Failure(e)
    case Panic(_) => Failure(PanicError(prefix))
  }

  /** `attemptFailure`: context errors win over the stage; otherwise the stage decides. */
  function FailureFor(stage: AttemptStage, e: Error): FailureDetail {
    if Is(e, Canceled) then FailureDetail(CodeCanceled, "config load canceled")
    else if Is(e, DeadlineExceeded) then FailureDetail(CodeDeadlineExceeded, "config load deadline exceeded")
    else StageFailure(stage)
  }

  function StageFailure(stage: AttemptStage): FailureDetail {
    match stage
    case StageContext => FailureDetail(CodeContextFailed, "config load context failed")
    case StageSourceRead => FailureDetail(CodeSourceReadFailed, "config source read failed")
    case StagePipelineValidate => FailureDetail(CodePipelineValidateFailed, "config pipeline validation failed")
    case StageDecode => FailureDetail(CodeDecodeFailed, "config decode failed")
    case StageDefaults => FailureDetail(CodeDefaultsFailed, "config default application failed")
    case StageValidateConfig => FailureDetail(CodeValidateConfigFailed, "config validation failed")
    case StageCopy => FailureDetail(CodeCopyFailed, "config copy failed")
    case StageRedact => FailureDetail(CodeRedactFailed, "config redaction failed")
    case StageChecksum => FailureDetail(CodeChecksumFailed, "config checksum failed")
    case _ => FailureDetail(CodeLoadFailed, "config load failed")
  }

  /** Errors that public output cannot tell apart: they agree on both context sentinels. */
  predicate SameClass(e: Error, f: Error) {
    && (Is(e, Canceled) <==> Is(f, Canceled))
    && (Is(e, DeadlineExceeded) <==> Is(f, DeadlineExceeded))
  }

  /** Wrapping, or recovering, changes no error's class, so the class of what a step did decides
      the public failure of the stage, whatever the error text or panic payload. */
  lemma ClassSurvivesWrapping(prefix: string, e: Error)
    ensures SameClass(StageError(prefix, e), e)
  {
    StageErrorPreservesIs(prefix, e, Canceled);
    StageErrorPreservesIs(prefix, e, DeadlineExceeded);
  }

  /** A step that panics is classified by its stage alone: whatever the payload was, a cancellation included, and
      whatever prefix the stage would add. */
  lemma PanicIsNotContextError<V>(prefix: string, stage: AttemptStage, payload: int)
    ensures var e := StageError(prefix, Recover(prefix, Outcome<V>.Panic(payload)).error);
      && e == PanicError(prefix)
      && Is(e, LifecyclePanicked)
      && FailureFor(stage, e) == StageFailure(stage)
  {
  }
}
