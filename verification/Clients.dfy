/** The non-aliasing of the manager, said once for a whole run: a client, and observers, that keep every object they
    have ever been given and overwrite all of them between any two calls. */
module Clients {
  import opened Core
  import opened Errors
  import opened Pipelines
  import opened Lifecycle
  import opened Records
  import opened Views
  import opened Managers

  datatype Request<!T> =
    | ApplyRequest(ctx: Context, result: LoadResult<T>, gate: Gate, t: Moments)
    | LoadRequest(ctx: Context, kind: AttemptKind, data: SourceData, pipeline: Pipeline<T>, gate: Gate, t: Moments)
    | SourceRequest(ctx: Context, kind: AttemptKind, source: Source?, pipeline: Pipeline<T>, gate: Gate, t: Moments)
    | StatusRequest
    | SnapshotRequest
    | AttemptsRequest
    | InspectRequest(ctx: Context, now: nat)
  {
    predicate Ordered() {
      ApplyRequest? || LoadRequest? || SourceRequest? ==> gate.Ordered()
    }
  }

  /** What a request does to the run: reads and refused calls nothing, the others one replayed operation. */
  function Served<T>(clock: nat -> Time, run: Run<T>, q: Request<T>): Run<T> {
    match q
    case ApplyRequest(ctx, result, gate, t) =>
      if Refusal(ctx, gate).Some? then run else Perform(clock, run, ApplyOp(ctx, result), t).0
    case LoadRequest(ctx, kind, data, pipeline, gate, t) =>
      if Refusal(ctx, gate).Some? then run else Perform(clock, run, LoadOp(ctx, kind, data, pipeline), t).0
    case SourceRequest(ctx, kind, source, pipeline, gate, t) =>
      if Refusal(ctx, gate).Some? then run
      else Perform(clock, run, SourceOp(ctx, kind, BehaviourOf(source), pipeline), t).0
    case _ => run
  }

  function ServedAll<T>(clock: nat -> Time, run: Run<T>, script: seq<Request<T>>): Run<T> {
    if script == [] then run
    else Served(clock, ServedAll(clock, run, script[..|script| - 1]), script[|script| - 1])
  }

  ghost function SourceOf<T>(q: Request<T>): set<object> {
    if q.SourceRequest? then Objects(q.source) else {}
  }

  ghost function SourcesOf<T>(script: seq<Request<T>>): set<object> {
    set q, s | q in script && s in SourceOf(q) :: s
  }

  /** `Apply`, with a failure object of the client's own. */
  method Submit<T>(manager: Manager<T>, ctx: Context, result: LoadResult<T>, gate: Gate, t: Moments)
    returns (ghost loot: set<object>)
    requires manager.Valid() && manager.Apart(manager.hoard.objects)
    requires manager.attemptAdmission.held == 0 && gate.Ordered()
    modifies manager, manager.attemptAdmission, manager.attemptHistory, manager.attemptHistory.buffer
    modifies Watchers(manager.observers), manager.hoard
    ensures manager.Valid() && manager.Apart(manager.hoard.objects) && manager.OwnsOnlyNew()
    ensures manager.attemptAdmission.held == 0
    ensures manager.run == Served(manager.clock, old(manager.run), ApplyRequest(ctx, result, gate, t))
    ensures fresh(manager.hoard.objects - old(manager.hoard.objects)) && manager.Relays()
    ensures fresh(loot) && manager.Apart(loot)
  {
    hide Perform, SettleApply, Told, ReplyRef.View, ReplyRef.Reach;
    hide manager.Valid, manager.Heard, manager.Caught, Separate;
    var failure := NewFailure(result.attempt.failure);
    var mine := LoadRef(result.snapshot, Attempt(result.attempt, failure));
    assert mine.View() == result;
    var answer := manager.ApplyExternal(ctx, mine, gate, t);
    loot := Objects(failure) + answer.value.Cells();
  }

  /** One request: everything it hands to the client is new, and none of it reachable from the manager. */
  method Serve<T>(manager: Manager<T>, q: Request<T>) returns (ghost loot: set<object>)
    requires manager.Valid() && manager.Apart(manager.hoard.objects)
    requires manager.attemptAdmission.held == 0 && q.Ordered()
    modifies manager, manager.attemptAdmission, manager.attemptHistory, manager.attemptHistory.buffer
    modifies Watchers(manager.observers), manager.hoard
    modifies SourceOf(q)
    ensures manager.Valid() && manager.Apart(manager.hoard.objects) && manager.OwnsOnlyNew()
    ensures manager.attemptAdmission.held == 0
    ensures manager.run == Served(manager.clock, old(manager.run), q)
    ensures fresh(manager.hoard.objects - old(manager.hoard.objects)) && manager.Relays()
    ensures fresh(loot) && manager.Apart(loot)
  {
    hide Perform, Told, ReplyRef.View, ReplyRef.Reach;
    hide manager.Valid, manager.Heard, manager.Caught, Separate;
    match q
    case ApplyRequest(ctx, result, gate, t) =>
      loot := Submit(manager, ctx, result, gate, t);
    case LoadRequest(ctx, kind, data, pipeline, gate, t) =>
      var answer := manager.Load(ctx, kind, data, pipeline, gate, t);
      loot := answer.value.Failures() + answer.value.Cells();
    case SourceRequest(ctx, kind, source, pipeline, gate, t) =>
      var answer := manager.LoadFromSource(ctx, kind, source, pipeline, gate, t);
      loot := answer.value.Failures() + answer.value.Cells();
    case _ =>
      loot := Look(manager, q);
      manager.Untouched();
  }

  /** A read: the manager is as it was. */
  method Look<T>(manager: Manager<T>, q: Request<T>) returns (ghost loot: set<object>)
    requires manager.Valid()
    ensures fresh(loot) && manager.Apart(loot)
  {
    hide manager.Valid;
    match q
    case StatusRequest =>
      var status := manager.LifecycleStatus();
      loot := status.Reach();
    case SnapshotRequest =>
      var _ := manager.CurrentSnapshot();
      loot := {};
    case AttemptsRequest =>
      var attempts := manager.Attempts();
      loot := {attempts} + Failures(attempts[..]);
    case InspectRequest(ctx, now) =>
      var inspection, err := manager.Inspect(ctx, now);
      if inspection.Some? {
        var i := inspection.value;
        loot := Objects(i.current) + Objects(i.redacted) + {i.recentAttempts} + Failures(i.recentAttempts[..])
                + ApplyReach(i.lastApply);
      } else {
        loot := {};
      }
    case _ =>
      loot := {};
  }

  /** Whatever code of the client's, or of an observer's, may do to the objects it has kept. The contract names them
      and says nothing else, so a caller has to reckon with any value in any field of any of them. */
  method Overwrite(ghost loot: set<object>)
    modifies loot
  {
  }

  /** Any sequence of requests, with every object that any reply, status or event ever led to overwritten at will
      before each of them: the manager stays valid, its run is the one the requests call for, and every observer
      was told exactly what that run logged, in order, in objects that it shares with no other observer. */
  method ServeHostile<T>(manager: Manager<T>, script: seq<Request<T>>)
    requires manager.Valid() && manager.attemptAdmission.held == 0 && manager.hoard.objects == {}
    requires forall q | q in script :: q.Ordered()
    modifies manager, manager.attemptAdmission, manager.attemptHistory, manager.attemptHistory.buffer
    modifies Watchers(manager.observers), manager.hoard
    modifies SourcesOf(script)
    ensures manager.Valid() && manager.attemptAdmission.held == 0
    ensures manager.run == ServedAll(manager.clock, old(manager.run), script)
    ensures manager.Relays() && manager.Caught()
  {
    hide Served, manager.Valid, manager.Heard, manager.Caught, Separate;
    ghost var loot: set<object> := {};
    for i := 0 to |script|
      invariant manager.Valid() && manager.attemptAdmission.held == 0
      invariant manager.run == ServedAll(manager.clock, old(manager.run), script[..i])
      invariant manager.Relays()
      invariant fresh(loot) && manager.Apart(loot)
      invariant fresh(manager.hoard.objects) && manager.Apart(manager.hoard.objects)
      invariant manager.attemptHistory.buffer == old(manager.attemptHistory.buffer)
                || fresh(manager.attemptHistory.buffer)
    {
      Overwrite(loot + manager.hoard.objects);
      assert script[..i + 1][..i] == script[..i];
      label before:
      var more := Serve(manager, script[i]);
      manager.StaysApart@before(loot);
      loot := loot + more;
    }
    assert script[..|script|] == script;
    manager.RelaysIsCaught();
  }
}
