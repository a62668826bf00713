/** Reload commands among any number of other callers: what each operator was told agrees with what the manager
    recorded for that very command, whatever ran in between. */
module ReloadRuns {
  import opened Core
  import opened Errors
  import opened Pipelines
  import opened LoadLaws
  import opened Lifecycle
  import opened OperationLaws
  import opened Reloads
  import opened ReloadLaws
  import C = Concurrent
  import L = ConcurrentLaws

  /** A goroutine that is on a reload command of a usable handler. */
  ghost predicate OnCommand<T>(th: C.Thread<T>, h: Handler<T>, ctx: Context) {
    && Usable(h, h.name)
    && (th.Turned? || th.Returned?)
    && th.op == SourceOp(ctx, KindReload, h.source, h.pipeline)
  }

  /** How many results had been recorded when the call at this place of the replay began. */
  function RecordedBefore<T>(clock: nat -> Time, limit: int, s: C.System<T>, place: nat): nat
    requires place <= |s.entries|
  {
    |Replay(clock, limit, s.entries[..place]).accepted|
  }

  /** A command that was admitted has its own entry in the record, and its answer is that entry: completed exactly if
      the entry published, and then with the entry's payload; otherwise failed with the entry's code, and the
      configuration was left as it was. */
  lemma AnswerIsRecorded<T>(clock: nat -> Time, limit: int, actions: seq<C.Action<T>>, tid: nat, h: Handler<T>,
                            ctx: Context)
    requires var s := C.Exec(clock, limit, actions);
      tid in s.threads && s.threads[tid].Returned? && OnCommand(s.threads[tid], h, ctx)
    ensures var s := C.Exec(clock, limit, actions);
            var th := s.threads[tid];
      && th.place < |s.entries| && th.reply.Managed?
      && var n := RecordedBefore(clock, limit, s, th.place);
      && n < |s.run.accepted|
      && var Accepted(external, result, apply) := s.run.accepted[n];
         var out := AnswerTo(th.reply);
      && !external && result.attempt.kind == KindReload
      && (out.CompletedCommand? <==> apply.published)
      && (out.CompletedCommand? ==>
            && apply.current.Some?
            && out.payload == ReloadResult(result.attempt.id, StatusSucceeded, StateLoaded, true, apply.changed,
                                           apply.current.value.checksum, apply.current.value.revision, None))
      && (!out.CompletedCommand? ==>
            && out.FailedCommand? && result.attempt.failure.Some?
            && out.detail.code == result.attempt.failure.value.code
            && out.detail.code !in {CodeMissingSource, CodePipelineValidateFailed, CodeReloadFailed}
            && apply.current == apply.previous)
  {
    hide C.Exec, Replay, Perform, Validate, Answer;
    var s := C.Exec(clock, limit, actions);
    var th := s.threads[tid];
    L.RepliesAreSequential(clock, limit, actions, tid);
    var before := Replay(clock, limit, s.entries[..th.place]);
    AnswerToPerformed(clock, before, h, ctx, th.t);
    RecordedForGood(clock, limit, actions, th.place);
  }

  /** What a completed operation recorded stays in the record. */
  lemma RecordedForGood<T>(clock: nat -> Time, limit: int, actions: seq<C.Action<T>>, place: nat)
    requires place < |C.Exec(clock, limit, actions).entries|
    ensures var s := C.Exec(clock, limit, actions);
            var Entry(op, t) := s.entries[place];
      Perform(clock, Replay(clock, limit, s.entries[..place]), op, t).0.accepted <= s.run.accepted
  {
    hide C.Exec, Replay, Perform;
    var s := C.Exec(clock, limit, actions);
    assert s.entries[..place + 1] == s.entries[..place] + [s.entries[place]];
    L.ReplayOneMore(clock, limit, s.entries[..place], s.entries[place]);
    L.ReplayAppends(clock, limit, s.entries, place + 1);
    L.CompletedBegin(clock, limit, actions);
  }

  /** The same about one managed load on its own. */
  lemma AnswerToPerformed<T>(clock: nat -> Time, r: Run<T>, h: Handler<T>, ctx: Context, t: Moments)
    requires Usable(h, h.name)
    ensures var (r', reply) := Perform(clock, r, SourceOp(ctx, KindReload, h.source, h.pipeline), t);
      && reply.Managed?
      && r'.accepted == r.accepted + [Accepted(false, reply.result, reply.apply)]
      && reply.result.attempt.kind == KindReload
      && var out := AnswerTo(reply);
      && (out.CompletedCommand? <==> reply.apply.published)
      && (out.CompletedCommand? ==>
            && reply.apply.current.Some?
            && var now := reply.apply.current.value;
               out.payload == ReloadResult(reply.result.attempt.id, StatusSucceeded, StateLoaded, true,
                                           reply.apply.changed, now.checksum, now.revision, None))
      && (!out.CompletedCommand? ==>
            && out.FailedCommand? && reply.result.attempt.failure.Some?
            && out.detail.code == reply.result.attempt.failure.value.code
            && out.detail.code !in {CodeMissingSource, CodePipelineValidateFailed, CodeReloadFailed}
            && reply.apply.current == reply.apply.previous)
  {
    hide Perform, Answer, Validate;
    LoadIsRecorded(clock, r, SourceOp(ctx, KindReload, h.source, h.pipeline), t);
    RejectedIsInert(clock, r, h, ctx, h.name, None, t);
    CompletedIsPublished(clock, r, h, ctx, h.name, None, t);
    FailedPreservesCurrent(clock, r, h, ctx, h.name, None, t);
    RecordedReasons(clock, r, h, ctx, h.name, t);
  }

  /** Two commands never answer from the same entry. */
  lemma EachItsOwn<T>(clock: nat -> Time, limit: int, actions: seq<C.Action<T>>, first: nat, second: nat,
                      h: Handler<T>, ctx: Context)
    requires var s := C.Exec(clock, limit, actions);
      && first in s.threads && s.threads[first].Returned? && OnCommand(s.threads[first], h, ctx)
      && second in s.threads && s.threads[second].Returned? && first != second
    ensures var s := C.Exec(clock, limit, actions);
            var i, j := s.threads[first].place, s.threads[second].place;
      && i < |s.entries| && j < |s.entries| && i != j
      && (i < j ==> RecordedBefore(clock, limit, s, i) < RecordedBefore(clock, limit, s, j))
  {
    hide C.Exec, Replay, Perform, Validate;
    var s := C.Exec(clock, limit, actions);
    var th := s.threads[first];
    var i, j := th.place, s.threads[second].place;
    L.RepliesAreSequential(clock, limit, actions, first);
    L.RepliesAreSequential(clock, limit, actions, second);
    if i < j {
      var entries := s.entries[..j];
      assert entries[..i] == s.entries[..i] && entries[..i + 1] == s.entries[..i] + [s.entries[i]];
      L.ReplayOneMore(clock, limit, s.entries[..i], s.entries[i]);
      L.ReplayAppends(clock, limit, entries, i + 1);
      LoadIsRecorded(clock, Replay(clock, limit, s.entries[..i]), th.op, th.t);
    }
  }

  /** A command that was turned away fails with its own context's cause, and nothing was recorded for it. */
  lemma TurnedAwayIsInert<T>(clock: nat -> Time, limit: int, actions: seq<C.Action<T>>, tid: nat, h: Handler<T>,
                             ctx: Context)
    requires var s := C.Exec(clock, limit, actions);
      tid in s.threads && s.threads[tid].Turned? && OnCommand(s.threads[tid], h, ctx)
    ensures var s := C.Exec(clock, limit, actions);
            var out := AnswerTo<T>(Refused(s.threads[tid].cause));
      && tid !in s.admissions && tid !in s.completions
      && ctx.doneFrom.Some? && s.threads[tid].cause == ctx.cause
      && out.FailedCommand?
      && out.detail.code == (if Is(ctx.cause, Canceled) then CodeCanceled
                             else if Is(ctx.cause, DeadlineExceeded) then CodeDeadlineExceeded
                             else CodeReloadFailed)
  {
    hide C.Exec, Validate;
    L.TurnedAwayLeavesNoTrace(clock, limit, actions, tid);
  }

  /** What the operator of a finished command is told. */
  function Told<T>(th: C.Thread<T>): CommandResult
    requires th.Turned? || (th.Returned? && !th.reply.Applied?)
  {
    if th.Turned? then AnswerTo<T>(Refused(th.cause)) else AnswerTo(th.reply)
  }

  /** The operator sees the fallback code exactly when the command was turned away and its context ended with a
      cause that is neither a cancellation nor a deadline. */
  lemma FallbackAmongOthers<T>(clock: nat -> Time, limit: int, actions: seq<C.Action<T>>, tid: nat, h: Handler<T>,
                               ctx: Context)
    requires var s := C.Exec(clock, limit, actions); tid in s.threads && OnCommand(s.threads[tid], h, ctx)
    ensures var th := C.Exec(clock, limit, actions).threads[tid];
      && (th.Turned? || !th.reply.Applied?)
      && (Told(th).FailedCommand? && Told(th).detail.code == CodeReloadFailed <==>
            th.Turned? && !Is(ctx.cause, Canceled) && !Is(ctx.cause, DeadlineExceeded))
  {
    hide C.Exec, Validate, AnswerTo, Replay, RecordedBefore;
    if C.Exec(clock, limit, actions).threads[tid].Turned? {
      TurnedAwayIsInert(clock, limit, actions, tid, h, ctx);
    } else {
      AnswerIsRecorded(clock, limit, actions, tid, h, ctx);
    }
  }
}
