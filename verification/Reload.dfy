/** The reload command: the manager's end-to-end client. What it tells the operator is compared with what
    the manager recorded. */
module Reloads {
  import opened Core
  import opened Errors
  import opened Pipelines
  import opened LoadLaws
  import opened Lifecycle
  import opened RunLaws
  import opened Records
  import opened Managers

  const DEFAULT_RELOAD_COMMAND_NAME := "config/reload"

  /** `WithReloadCommandName`: an empty name keeps the default. */
  function CommandName(option: Option<string>): string {
    if option.None? || option.value == "" then DEFAULT_RELOAD_COMMAND_NAME else option.value
  }

  datatype ReloadResult = ReloadResult(
    attemptId: nat,
    status: AttemptStatus,
    managerState: LifecycleState,
    published: bool,
    changed: bool,
    currentChecksum: string,
    currentRevision: string,
    failure: Option<FailureDetail>
  )

  datatype CommandResult =
    | RejectedCommand(message: string, failure: Option<FailureDetail>)
    | FailedCommand(message: string, detail: FailureDetail)
    | CompletedCommand(message: string, payload: ReloadResult)

  /** Why a handler cannot run at all. */
  datatype Misconfiguration = Misconfiguration(message: string, failure: Option<FailureDetail>)

  /** `configurationFailure`. */
  function ConfigurationFailure<T>(hasManager: bool, source: Option<SourceBehaviour>, pipeline: Pipeline<T>)
    : Option<Misconfiguration>
  {
    if !hasManager then Some(Misconfiguration("config reload command handler is missing manager", None))
    else if source.None? then
      Some(Misconfiguration("config reload command handler is missing source",
                            Some(FailureDetail(CodeMissingSource, "config source is missing"))))
    else if Validate(pipeline).Some? then
      Some(Misconfiguration("config reload command handler has invalid pipeline",
                            Some(FailureDetail(CodePipelineValidateFailed, "config pipeline validation failed"))))
    else None
  }

  predicate IsContextError(err: Option<Error>) {
    err.Some? && (Is(err.value, Canceled) || Is(err.value, DeadlineExceeded))
  }

  /** `reloadCommandContextError`. */
  function ContextError(e: Error): Error {
    if Is(e, Canceled) then Canceled else if Is(e, DeadlineExceeded) then DeadlineExceeded else e
  }

  /** `reloadCommandContextMessage`. */
  function ContextMessage(e: Error): string {
    if Is(e, Canceled) then "config reload canceled"
    else if Is(e, DeadlineExceeded) then "config reload deadline exceeded"
    else "config reload failed"
  }

  const RELOAD_FAILED := FailureDetail(CodeReloadFailed, "config reload failed")

  /** The zero attempt that comes with a refused call. */
  const NO_ATTEMPT := AttemptRecord(0, KindNone, StatusNone, StageNone, NO_METADATA, "", "", ZERO_TIME, ZERO_TIME, None)

  /** `NewReloadCommandResult`. */
  function NewReloadResult(attempt: AttemptRecord, apply: ApplyResult, loadErr: Option<Error>): ReloadResult {
    ReloadResult(
      attempt.id, attempt.status, apply.managerState, apply.published, apply.changed,
      if apply.current.Some? then apply.current.value.checksum else "",
      if apply.current.Some? then apply.current.value.revision else "",
      if loadErr.Some? || attempt.status == StatusFailed then
        Some(if attempt.failure.Some? then attempt.failure.value else RELOAD_FAILED)
      else None)
  }

  /** `reloadCommandFailure`. */
  function FailureOf(payload: ReloadResult): FailureDetail {
    if payload.failure.Some? then payload.failure.value else RELOAD_FAILED
  }

  /** What the handler makes of what `LoadFromSource` returned. */
  function Answer(attempt: AttemptRecord, apply: ApplyResult, loadErr: Option<Error>): CommandResult {
    if IsContextError(loadErr) then
      var e := ContextError(loadErr.value);
      FailedCommand(ContextMessage(e), FailureFor(StageContext, e).(message := ContextMessage(e)))
    else
      var payload := NewReloadResult(attempt, apply, loadErr);
      if loadErr.Some? || attempt.status != StatusSucceeded then
        FailedCommand("config reload failed", FailureOf(payload))
      else CompletedCommand("config reload succeeded", payload)
  }

  function AnswerTo<T>(reply: Reply<T>): CommandResult
    requires !reply.Applied?
  {
    match reply
    case Refused(cause) => Answer(NO_ATTEMPT, NO_APPLY, Some(cause))
    case Managed(result, apply, err) => Answer(result.attempt, apply, err)
  }

  datatype Handler<!T> = Handler(source: Option<SourceBehaviour>, pipeline: Pipeline<T>, name: string)

  /** One command on a handler that has a manager: `refusal` is what the admission returned. */
  function Handle<T>(clock: nat -> Time, r: Run<T>, h: Handler<T>, ctx: Context, request: string,
                     refusal: Option<Error>, t: Moments): (Run<T>, CommandResult)
  {
    var problem := ConfigurationFailure(true, h.source, h.pipeline);
    if problem.Some? then (r, RejectedCommand(problem.value.message, problem.value.failure))
    else if request != h.name then (r, RejectedCommand("unsupported config reload command", None))
    else if refusal.Some? then (r, AnswerTo<T>(Refused(refusal.value)))
    else
      var done := Perform(clock, r, SourceOp(ctx, KindReload, h.source, h.pipeline), t);
      (done.0, AnswerTo(done.1))
  }

  class ReloadCommandHandler<T> {
    const manager: Manager?<T>
    const source: Source?
    const pipeline: Pipeline<T>
    const name: string

    constructor (manager: Manager?<T>, source: Source?, pipeline: Pipeline<T>, name: Option<string>)
      ensures this.manager == manager && this.source == source && this.pipeline == pipeline
      ensures this.name == if name.None? || name.value == "" then "config/reload" else name.value
    {
      this.manager, this.source, this.pipeline, this.name := manager, source, pipeline, CommandName(name);
    }

    function AsHandler(): Handler<T> {
      Handler(BehaviourOf(source), pipeline, name)
    }

    /** What a command may change: the manager and its observers, and the source's call count. */
    ghost function Touches(): set<object>
      reads manager, if manager == null then {} else {manager.attemptHistory}
    {
      Objects(source)
      + if manager == null then {}
        else Objects(manager) + Objects(manager.attemptAdmission)
             + Objects(manager.attemptHistory) + Objects(manager.attemptHistory.buffer)
             + Watchers(manager.observers) + Objects(manager.hoard)
    }

    /** The command gets as far as the admission, and has to wait there. */
    predicate Waits(ctx: Context, request: string, gate: Gate)
      reads if manager == null then {} else {manager.attemptAdmission}
    {
      && manager != null && ConfigurationFailure(true, BehaviourOf(source), pipeline).None? && request == name
      && Admit(manager.attemptAdmission.held, ctx, gate).StillWaiting?
    }

    /** `HandleCommand`; no answer yet if it has to wait for the token. */
    method HandleCommand(ctx: Context, request: string, gate: Gate, t: Moments) returns (out: Option<CommandResult>)
      requires manager != null ==> manager.Valid()
      requires gate.Ordered()
      modifies Touches()
      ensures manager == null ==>
        out == Some(RejectedCommand("config reload command handler is missing manager", None))
      ensures out.None? <==> old(Waits(ctx, request, gate))
      ensures manager != null ==>
        && manager.Valid() && manager.attemptAdmission.held == old(manager.attemptAdmission.held)
        && manager.Relays() && manager.Caught()
        && (out.Some? ==>
              (manager.run, out.value) ==
              Handle(manager.clock, old(manager.run), AsHandler(), ctx, request, Refusal(ctx, gate), t))
      ensures out.None? || out.value.RejectedCommand? ==>
        && (manager != null ==> manager.Undisturbed())
        && (source != null ==> unchanged(source))
    {
      var problem := ConfigurationFailure(manager != null, BehaviourOf(source), pipeline);
      if problem.Some? {
        return Some(RejectedCommand(problem.value.message, problem.value.failure));
      }
      if request != name {
        return Some(RejectedCommand("unsupported config reload command", None));
      }
      out := Reload(manager, ctx, source, pipeline, gate, t);
    }
  }

  /** The part of `HandleCommand` that reaches the manager. */
  method Reload<T>(manager: Manager<T>, ctx: Context, source: Source?, pipeline: Pipeline<T>, gate: Gate, t: Moments)
    returns (out: Option<CommandResult>)
    requires manager.Valid() && gate.Ordered()
    modifies manager, manager.attemptAdmission, manager.attemptHistory, manager.attemptHistory.buffer
    modifies Watchers(manager.observers), manager.hoard, source
    ensures manager.Valid() && manager.attemptAdmission.held == old(manager.attemptAdmission.held)
    ensures out.None? <==> Admit(old(manager.attemptAdmission.held), ctx, gate).StillWaiting?
    ensures out.None? ==> manager.Undisturbed() && (source != null ==> unchanged(source))
    ensures out.Some? ==>
      var op := SourceOp(ctx, KindReload, BehaviourOf(source), pipeline);
      var refusal := Refusal(ctx, gate);
      (manager.run, out.value) ==
      if refusal.Some? then (old(manager.run), AnswerTo<T>(Refused(refusal.value)))
      else var done := Perform(manager.clock, old(manager.run), op, t); (done.0, AnswerTo(done.1))
    ensures manager.Relays() && manager.Caught()
    ensures out.Some? ==> !out.value.RejectedCommand?
  {
    ReplyIsManaged(manager.clock, manager.run, SourceOp(ctx, KindReload, BehaviourOf(source), pipeline), t);
    hide Perform, manager.Valid, manager.Apart, manager.Heard, manager.Caught, Separate, manager.PrivateFrom;
    var reply := manager.LoadFromSource(ctx, KindReload, source, pipeline, gate, t);
    out := if reply.None? then None else Some(AnswerRef(reply.value));
  }

  /** The answer to a reply, read through its pointers. */
  function AnswerRef<T>(reply: ReplyRef<T>): (out: CommandResult)
    requires !reply.AppliedRef?
    reads if reply.ManagedRef? then {reply.result.attempt.failure, reply.apply.previous, reply.apply.current} else {}
    ensures out == AnswerTo(reply.View()) && !out.RejectedCommand?
  {
    match reply
    case RefusedRef(cause) => Answer(NO_ATTEMPT, NO_APPLY, Some(cause))
    case ManagedRef(result, apply, err) => Answer(result.attempt.View(), apply.View(), err)
  }

  lemma ReplyIsManaged<T>(clock: nat -> Time, r: Run<T>, op: Op<T>, t: Moments)
    requires !op.ApplyOp?
    ensures Perform(clock, r, op, t).1.Managed?
  {
    hide OutcomeOf;
  }
}
