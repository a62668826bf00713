/** Facts about every sequence of admitted operations: one operation is one block of events, and the accepted
    history decides the state - identifiers, retained attempts, last-known-good configuration, the chain of
    apply results. */
module RunLaws {
  import opened Core
  import opened Errors
  import opened Pipelines
  import opened LoadLaws
  import opened Lifecycle

  /** The validator does not look at the identifier. */
  lemma ApplicableIgnoresId<T>(result: LoadResult<T>, id: nat)
    ensures InvalidReason(WithId(result, id)) == InvalidReason(result)
    ensures Applicable(WithId(result, id)) <==> Applicable(result)
  {
  }

  // ---------------------------------------------------------------- one operation, one block

  /** The event reports `a` in full, and the state it reports is the state the observers saw. */
  ghost predicate Reports<T>(e: Emission, kind: EventKind, a: Accepted<T>) {
    && e.event.kind == kind
    && e.event.managerState == e.live == a.apply.managerState
    && e.event.attemptId == a.result.attempt.id
    && e.event.attemptKind == a.result.attempt.kind
    && e.event.source == a.result.attempt.source
    && e.event.revision == a.result.attempt.revision
    && e.event.attempt == Some(a.result.attempt)
    && e.event.snapshot == MetadataOf(a.result.snapshot)
    && e.event.apply == Some(a.apply)
  }

  /** The uninterleaved block of events an accepted result leaves in the log. */
  ghost predicate IsBlock<T>(events: seq<Emission>, a: Accepted<T>, before: LifecycleState) {
    if a.external then
      if a.apply.published then |events| == 1 && Reports(events[0], SnapshotApplied, a) else events == []
    else
      && |events| == (if a.apply.published then 3 else 2)
      && events[0].event.kind == LoadStarted
      && events[0].event.attemptId == a.result.attempt.id
      && events[0].event.attemptKind == a.result.attempt.kind
      && events[0].event.attempt.None? && events[0].event.snapshot.None? && events[0].event.apply.None?
      && events[0].event.managerState == events[0].live == before
      && Reports(events[1], if a.apply.published then LoadSucceeded else LoadFailed, a)
      && (a.apply.published ==> Reports(events[2], SnapshotApplied, a))
  }

  lemma OutcomeSound<T>(clock: nat -> Time, op: Op<T>, t: Moments)
    requires !op.ApplyOp?
    ensures Sound(OutcomeOf(clock, op, t))
  {
    match op
    case LoadOp(ctx, kind, data, pipeline) =>
      LoadAlwaysValidates(Job(ctx, clock, kind, data, pipeline, clock(t.startedAt)), t.loadAt);
    case SourceOp(ctx, kind, source, pipeline) =>
      SourceLoadAlwaysValidates(ctx, clock, kind, source, pipeline, clock(t.startedAt), t.metadataAt, t.loadAt);
  }

  /** The record of a managed load is of the kind the caller asked for. */
  lemma OutcomeKind<T>(clock: nat -> Time, op: Op<T>, t: Moments)
    requires !op.ApplyOp?
    ensures OutcomeOf(clock, op, t).result.attempt.kind == KindOf(op)
  {
    hide SourceOutcome, RunStages;
    match op
    case LoadOp(ctx, kind, data, pipeline) =>
      LoadIsStamped(Job(ctx, clock, kind, data, pipeline, clock(t.startedAt)), StageList(pipeline), Blank, t.loadAt);
    case SourceOp(ctx, kind, source, pipeline) =>
      SourceLoadIsStamped(ctx, clock, kind, source, pipeline, clock(t.startedAt), t.metadataAt, t.loadAt);
  }

  /** The validator that runs before a managed result is applied never fires, so the error of a managed
      load is the load's own, and it is nil exactly when the load published. */
  lemma ApplyErrUnreachable<T>(clock: nat -> Time, r: Run<T>, op: Op<T>, t: Moments)
    requires !op.ApplyOp?
    ensures Applicable(OutcomeOf(clock, op, t).result)
    ensures var reply := Perform(clock, r, op, t).1;
      && reply.Managed?
      && reply.err == OutcomeOf(clock, op, t).err
      && (reply.err.None? <==> reply.apply.published)
      && Applicable(reply.result)
  {
    hide OutcomeOf;
    OutcomeSound(clock, op, t);
  }

  /** An admitted operation either is an `Apply` with an invalid result, and does nothing at all, or
      adds one accepted result, with the next identifier and one block of events. */
  lemma PerformIsOneBlock<T>(clock: nat -> Time, r: Run<T>, op: Op<T>, t: Moments)
    returns (a: Accepted<T>, events: seq<Emission>)
    ensures var r' := Perform(clock, r, op, t).0;
      if op.ApplyOp? && !Applicable(op.result) then r' == r
      else
        && a.external == op.ApplyOp?
        && Applicable(a.result)
        && a.result.attempt.id == NextId(r.m.nextId)
        && a.apply == ApplyOf(AssignId(r).m, a.result, a.apply.appliedAt)
        && r'.m == Commit(AssignId(r).m, a.result, a.apply.appliedAt)
        && r'.accepted == r.accepted + [a]
        && r'.log == r.log + events
        && IsBlock(events, a, LifecycleStateOf(r.m))
  {
    var r' := Perform(clock, r, op, t).0;
    events := if |r.log| <= |r'.log| then r'.log[|r.log|..] else [];
    if op.ApplyOp? && !Applicable(op.result) {
      a := Accepted(true, op.result, NO_APPLY);
    } else if op.ApplyOp? {
      a := r'.accepted[|r'.accepted| - 1];
    } else {
      ManagedIsOneBlock(clock, r, op, t);
      a := r'.accepted[|r'.accepted| - 1];
    }
  }

  lemma ManagedIsOneBlock<T>(clock: nat -> Time, r: Run<T>, op: Op<T>, t: Moments)
    requires !op.ApplyOp?
    ensures var r' := PerformManaged(clock, r, op, t).0;
      && |r'.accepted| == |r.accepted| + 1
      && |r'.log| >= |r.log|
      && var a := r'.accepted[|r.accepted|];
      && !a.external
      && Applicable(a.result)
      && a.result.attempt.id == NextId(r.m.nextId)
      && a.apply == ApplyOf(AssignId(r).m, a.result, a.apply.appliedAt)
      && r'.m == Commit(AssignId(r).m, a.result, a.apply.appliedAt)
      && r'.accepted == r.accepted + [a]
      && r'.log == r.log + r'.log[|r.log|..]
      && IsBlock(r'.log[|r.log|..], a, LifecycleStateOf(r.m))
  {
    hide OutcomeOf, Commit, ApplyOf, InvalidReason, LifecycleStateOf;
    OutcomeKind(clock, op, t);
    OutcomeSound(clock, op, t);
    var loaded := OutcomeOf(clock, op, t);
    var begun := Obtain(Announce(clock, Begin(r, op), op, t), op, t);
    var result := WithId(loaded.result, begun.m.nextId);
    ApplicableIgnoresId(loaded.result, begun.m.nextId);
    CommitIsTold(begun.m, result, clock(t.committedAt));
    LiveIgnoresId(r.m, begun.m.nextId);
  }

  lemma LiveIgnoresId<T>(m: State<T>, id: nat)
    ensures LifecycleStateOf(m.(nextId := id)) == LifecycleStateOf(m)
  {
  }

  /** What a commit returns, and the state it leaves, are what the events that follow will say. */
  lemma CommitIsTold<T>(m: State<T>, result: LoadResult<T>, at: Time)
    requires Applicable(result)
    ensures var apply := ApplyOf(m, result, at);
      && apply.appliedAt == at
      && (apply.published <==> result.attempt.status == StatusSucceeded)
      && (apply.published ==> apply.current.Some? && apply.current == MetadataOf(result.snapshot))
      && LifecycleStateOf(Commit(m, result, at)) == apply.managerState
  {
    hide InvalidReason, Remember;
    ApplicableShape(result);
  }

  /** `load_started` announces the source and revision that the record will carry: always for `Load`, and for
      `LoadFromSource` when the read itself fails. What it announces is the data's own, or what the source said about
      itself before it was read. */
  lemma {:induction false} StartAnnouncesRecord<T>(clock: nat -> Time, r: Run<T>, op: Op<T>, t: Moments)
    requires !op.ApplyOp?
    ensures var r' := Perform(clock, r, op, t).0;
      && |r'.log| > |r.log| && r'.m.lastAttempt.Some?
      && var started, attempt := r'.log[|r.log|].event, r'.m.lastAttempt.value;
         (op.LoadOp? || (attempt.status == StatusFailed && attempt.stage == StageSourceRead)) ==>
           started.source == attempt.source && started.revision == attempt.revision
    ensures var started := Perform(clock, r, op, t).0.log[|r.log|].event;
      if op.LoadOp? then started.source == op.data.metadata && started.revision == op.data.revision
      else
        && started.revision == ""
        && started.source == if op.source.None? then NO_METADATA
                             else match op.source.value.metadata(t.metadataAt)
                                  case Described(metadata) => metadata
                                  case MetadataPanic(_) => NO_METADATA
  {
    hide OutcomeOf, AnnouncedSource, AnnouncedRevision, LifecycleStateOf;
    OutcomeSound(clock, op, t);
    OutcomeNames(clock, op, t);
    AnnouncedIs(op, t);
  }

  lemma AnnouncedIs<T>(op: Op<T>, t: Moments)
    requires !op.ApplyOp?
    ensures op.LoadOp? ==> AnnouncedSource(op, t) == op.data.metadata && AnnouncedRevision(op) == op.data.revision
    ensures op.SourceOp? ==>
      && AnnouncedRevision(op) == ""
      && AnnouncedSource(op, t) == if op.source.None? then NO_METADATA
                                   else match op.source.value.metadata(t.metadataAt)
                                        case Described(metadata) => metadata
                                        case MetadataPanic(_) => NO_METADATA
  {
  }

  lemma OutcomeNames<T>(clock: nat -> Time, op: Op<T>, t: Moments)
    requires !op.ApplyOp?
    ensures var attempt := OutcomeOf(clock, op, t).result.attempt;
      (op.LoadOp? || (attempt.status == StatusFailed && attempt.stage == StageSourceRead)) ==>
        AnnouncedSource(op, t) == attempt.source && AnnouncedRevision(op) == attempt.revision
  {
    hide SourceOutcome, RunStages, Applicable;
    OutcomeSound(clock, op, t);
    match op
    case LoadOp(ctx, kind, data, pipeline) =>
      LoadIsStamped(Job(ctx, clock, kind, data, pipeline, clock(t.startedAt)), StageList(pipeline), Blank, t.loadAt);
    case SourceOp(ctx, kind, source, pipeline) =>
      SourceLoadIsStamped(ctx, clock, kind, source, pipeline, clock(t.startedAt), t.metadataAt, t.loadAt);
  }

  // ---------------------------------------------------------------- the accepted history decides the state

  /** The index of the latest accepted result with this status, or -1. */
  function Latest<T>(accepted: seq<Accepted<T>>, status: AttemptStatus): (i: int)
    ensures -1 <= i < |accepted|
    ensures i >= 0 ==> accepted[i].result.attempt.status == status
    ensures forall j | i < j < |accepted| :: accepted[j].result.attempt.status != status
  {
    var n := |accepted|;
    if n == 0 then -1
    else if accepted[n - 1].result.attempt.status == status then n - 1
    else Latest(accepted[..n - 1], status)
  }

  function Records<T>(accepted: seq<Accepted<T>>): seq<AttemptRecord> {
    seq(|accepted|, i requires 0 <= i < |accepted| => accepted[i].result.attempt)
  }

  /** The last `n` elements, or all of them. */
  function Suffix<V>(s: seq<V>, n: nat): seq<V> {
    if |s| <= n then s else s[|s| - n..]
  }

  /** The state a history of accepted results calls for. */
  ghost function StateOf<T>(limit: int, accepted: seq<Accepted<T>>): State<T> {
    var last := |accepted| - 1;
    var success := Latest(accepted, StatusSucceeded);
    var failure := Latest(accepted, StatusFailed);
    State(|accepted| % ID_SPACE,
          if success < 0 then None else accepted[success].result.snapshot,
          if last < 0 then None else Some(accepted[last].result.attempt),
          if success < 0 then None else Some(accepted[success].result.attempt),
          if failure < 0 then None else Some(accepted[failure].result.attempt),
          if last < 0 then None else Some(accepted[last].apply),
          Suffix(Records(accepted), Capacity(limit)),
          limit)
  }

  ghost predicate Reflects<T>(m: State<T>, limit: int, accepted: seq<Accepted<T>>) {
    m == StateOf(limit, accepted)
  }

  /** The lifecycle state as a closed form of the accepted history. */
  function StateAfter<T>(accepted: seq<Accepted<T>>): LifecycleState {
    if accepted == [] then StateUnloaded
    else if Latest(accepted, StatusSucceeded) < 0 then StateFailed
    else if Latest(accepted, StatusSucceeded) == |accepted| - 1 then StateLoaded
    else StateDegraded
  }

  function CurrentAfter<T>(accepted: seq<Accepted<T>>): Option<SnapshotMetadata> {
    var success := Latest(accepted, StatusSucceeded);
    if success < 0 then None else MetadataOf(accepted[success].result.snapshot)
  }

  /** What the `i`-th accepted result must look like, given the ones before it. */
  ghost predicate LinkOk<T>(accepted: seq<Accepted<T>>, i: nat)
    requires i < |accepted|
  {
    var a := accepted[i];
    && Applicable(a.result)
    && a.result.attempt.id == (i + 1) % ID_SPACE
    && a.apply.previous == CurrentAfter(accepted[..i])
    && a.apply.current == CurrentAfter(accepted[..i + 1])
    && a.apply.managerState == StateAfter(accepted[..i + 1])
    && (a.apply.published <==> a.result.attempt.status == StatusSucceeded)
    && (a.apply.changed <==>
          a.apply.published
          && (a.apply.previous.None? || a.apply.previous.value.checksum != a.apply.current.value.checksum))
  }

  ghost predicate Chain<T>(accepted: seq<Accepted<T>>) {
    forall i | 0 <= i < |accepted| :: LinkOk(accepted, i)
  }

  lemma {:induction false} LatestOfExtension<T>(accepted: seq<Accepted<T>>, a: Accepted<T>, status: AttemptStatus)
    ensures Latest(accepted + [a], status) ==
            if a.result.attempt.status == status then |accepted| else Latest(accepted, status)
  {
    assert (accepted + [a])[..|accepted|] == accepted;
  }

  lemma ChainExtends<T>(accepted: seq<Accepted<T>>, a: Accepted<T>)
    requires Chain(accepted) && LinkOk(accepted + [a], |accepted|)
    ensures Chain(accepted + [a])
  {
    var longer := accepted + [a];
    forall i | 0 <= i < |longer| ensures LinkOk(longer, i) {
      if i < |accepted| {
        assert longer[..i] == accepted[..i] && longer[..i + 1] == accepted[..i + 1];
        assert LinkOk(accepted, i);
      }
    }
  }

  /** The append, overlapping shift and truncation of the history keep it the suffix of the full record. */
  lemma RememberKeepsSuffix(all: seq<AttemptRecord>, attempt: AttemptRecord, limit: int)
    ensures Remember(Suffix(all, Capacity(limit)), attempt, limit) == Suffix(all + [attempt], Capacity(limit))
  {
    var n := Capacity(limit);
    if limit >= 0 {
      assert |all| > n ==> all[|all| - n..] + [attempt] == (all + [attempt])[|all| - n..];
    } else {
      assert Suffix(all, 0) == [] == Suffix(all + [attempt], 0);
    }
  }

  lemma CommitReflects<T>(m: State<T>, limit: int, accepted: seq<Accepted<T>>, a: Accepted<T>)
    requires Reflects(m, limit, accepted) && Chain(accepted)
    requires Applicable(a.result) && a.result.attempt.id == NextId(m.nextId)
    requires a.apply == ApplyOf(m, a.result, a.apply.appliedAt)
    ensures Reflects(Commit(m.(nextId := NextId(m.nextId)), a.result, a.apply.appliedAt), limit, accepted + [a])
    ensures Chain(accepted + [a])
  {
    hide Commit, Reflects, LinkOk, Applicable, NextId;
    CommitKeepsReflects(m, limit, accepted, a);
    CommitLinks(m, limit, accepted, a);
    ChainExtends(accepted, a);
  }

  /** The apply result describes the state it was computed from and the state it leads to. */
  lemma ApplyDescribes<T>(m: State<T>, id: nat, result: LoadResult<T>, at: Time)
    ensures var m' := Commit(m.(nextId := id), result, at);
            var apply := ApplyOf(m, result, at);
      && ApplyOf(m.(nextId := id), result, at) == apply
      && m'.lastApply == Some(apply)
      && apply.previous == MetadataOf(m.current)
      && apply.current == MetadataOf(m'.current)
      && apply.managerState == LifecycleStateOf(m')
  {
  }

  lemma CommitKeepsReflects<T>(m: State<T>, limit: int, accepted: seq<Accepted<T>>, a: Accepted<T>)
    requires Reflects(m, limit, accepted) && Applicable(a.result) && a.result.attempt.id == NextId(m.nextId)
    requires a.apply == ApplyOf(m, a.result, a.apply.appliedAt)
    ensures Reflects(Commit(m.(nextId := NextId(m.nextId)), a.result, a.apply.appliedAt), limit, accepted + [a])
  {
    hide StateOf, Commit, ApplyOf;
    StateExtends(limit, accepted, a);
    CommitWrites(m, a.result, a.apply.appliedAt);
    assert m.limit == limit by { LimitOf(limit, accepted); }
  }

  lemma LimitOf<T>(limit: int, accepted: seq<Accepted<T>>)
    ensures StateOf(limit, accepted).limit == limit
  {
  }

  /** What one more accepted result changes in the state a history calls for. */
  function Extended<T>(m: State<T>, a: Accepted<T>): State<T> {
    var attempt := a.result.attempt;
    State(NextId(m.nextId),
          if attempt.status == StatusSucceeded then a.result.snapshot else m.current,
          Some(attempt),
          if attempt.status == StatusSucceeded then Some(attempt) else m.lastSuccess,
          if attempt.status == StatusFailed then Some(attempt) else m.lastFailure,
          Some(a.apply),
          Remember(m.history, attempt, m.limit),
          m.limit)
  }

  lemma StateExtends<T>(limit: int, accepted: seq<Accepted<T>>, a: Accepted<T>)
    ensures StateOf(limit, accepted + [a]) == Extended(StateOf(limit, accepted), a)
  {
    hide Remember, Suffix, Latest;
    LatestOfExtension(accepted, a, StatusSucceeded);
    LatestOfExtension(accepted, a, StatusFailed);
    RememberKeepsSuffix(Records(accepted), a.result.attempt, limit);
    assert Records(accepted + [a]) == Records(accepted) + [a.result.attempt];
  }

  lemma CommitWrites<T>(m: State<T>, result: LoadResult<T>, at: Time)
    requires Applicable(result)
    ensures Commit(m.(nextId := NextId(m.nextId)), result, at) ==
            Extended(m, Accepted(false, result, ApplyOf(m, result, at)))
  {
    hide Remember, InvalidReason;
    ApplicableShape(result);
  }

  lemma {:induction false} StateIsClosedForm<T>(m: State<T>, limit: int, accepted: seq<Accepted<T>>)
    requires Reflects(m, limit, accepted)
    requires accepted != [] ==> Applicable(accepted[|accepted| - 1].result)
    requires var s := Latest(accepted, StatusSucceeded); s >= 0 ==> accepted[s].result.snapshot.Some?
    ensures LifecycleStateOf(m) == StateAfter(accepted)
    ensures MetadataOf(m.current) == CurrentAfter(accepted)
  {
    hide Records, Suffix;
  }

  lemma CommitLinks<T>(m: State<T>, limit: int, accepted: seq<Accepted<T>>, a: Accepted<T>)
    requires Reflects(m, limit, accepted) && Chain(accepted)
    requires Applicable(a.result) && a.result.attempt.id == NextId(m.nextId)
    requires a.apply == ApplyOf(m, a.result, a.apply.appliedAt)
    ensures LinkOk(accepted + [a], |accepted|)
  {
    hide Reflects, CurrentAfter, StateAfter, Chain, Applicable, ApplyOf;
    var longer := accepted + [a];
    assert longer[..|accepted|] == accepted && longer[..|accepted| + 1] == longer;
    LinkedStates(m, limit, accepted, a);
    LinkedFlags(m, a.result, a.apply.appliedAt);
    ReflectsId(m, limit, accepted);
  }

  /** The apply result's metadata and state are those of the two histories it stands between. */
  lemma LinkedStates<T>(m: State<T>, limit: int, accepted: seq<Accepted<T>>, a: Accepted<T>)
    requires Reflects(m, limit, accepted) && Chain(accepted)
    requires Applicable(a.result) && a.result.attempt.id == NextId(m.nextId)
    requires a.apply == ApplyOf(m, a.result, a.apply.appliedAt)
    ensures a.apply.previous == CurrentAfter(accepted)
    ensures a.apply.current == CurrentAfter(accepted + [a]) && a.apply.managerState == StateAfter(accepted + [a])
  {
    hide Commit, Reflects, CurrentAfter, StateAfter, LifecycleStateOf, Latest, Chain, Applicable, ApplyOf;
    var m' := Commit(m.(nextId := NextId(m.nextId)), a.result, a.apply.appliedAt);
    ApplyDescribes(m, NextId(m.nextId), a.result, a.apply.appliedAt);
    CommitKeepsReflects(m, limit, accepted, a);
    SuccessesHaveSnapshots(accepted);
    ExtensionHasSnapshots(accepted, a);
    StateIsClosedForm(m, limit, accepted);
    StateIsClosedForm(m', limit, accepted + [a]);
  }

  /** What `Published` and `Changed` say. */
  lemma LinkedFlags<T>(m: State<T>, result: LoadResult<T>, at: Time)
    requires Applicable(result)
    ensures var apply := ApplyOf(m, result, at);
      && (apply.published <==> result.attempt.status == StatusSucceeded)
      && (apply.published ==> apply.current.Some?)
      && (apply.changed <==>
            apply.published && (apply.previous.None? || apply.previous.value.checksum != apply.current.value.checksum))
  {
    hide InvalidReason, LifecycleStateOf, WriteOutcome;
    ApplicableShape(result);
  }

  lemma ReflectsId<T>(m: State<T>, limit: int, accepted: seq<Accepted<T>>)
    requires Reflects(m, limit, accepted)
    ensures m.nextId == |accepted| % ID_SPACE
  {
  }

  lemma {:induction false} ExtensionHasSnapshots<T>(accepted: seq<Accepted<T>>, a: Accepted<T>)
    requires Chain(accepted) && Applicable(a.result)
    ensures var s := Latest(accepted + [a], StatusSucceeded); s >= 0 ==> (accepted + [a])[s].result.snapshot.Some?
  {
    SuccessesHaveSnapshots(accepted);
    LatestOfExtension(accepted, a, StatusSucceeded);
  }

  lemma {:induction false} SuccessesHaveSnapshots<T>(accepted: seq<Accepted<T>>)
    requires Chain(accepted)
    ensures var s := Latest(accepted, StatusSucceeded); s >= 0 ==> accepted[s].result.snapshot.Some?
    ensures accepted != [] ==> Applicable(accepted[|accepted| - 1].result)
  {
    var s := Latest(accepted, StatusSucceeded);
    if s >= 0 {
      assert LinkOk(accepted, s);
    }
    if accepted != [] {
      assert LinkOk(accepted, |accepted| - 1);
    }
  }

  /** Every manager state is decided by the accepted history, and the accepted history is a chain:
      gapless identifiers, each result's `Previous` the one before's `Current`. */
  lemma {:induction false} ReplayReflects<T>(clock: nat -> Time, limit: int, entries: seq<Entry<T>>)
    ensures var r := Replay(clock, limit, entries); Reflects(r.m, limit, r.accepted) && Chain(r.accepted)
    decreases |entries|
  {
    if entries == [] {
      assert Records<T>([]) == [];
    } else {
      var before := entries[..|entries| - 1];
      var last := entries[|entries| - 1];
      ReplayReflects(clock, limit, before);
      PerformReflects(clock, limit, Replay(clock, limit, before), last.op, last.t);
    }
  }

  lemma PerformReflects<T>(clock: nat -> Time, limit: int, r: Run<T>, op: Op<T>, t: Moments)
    requires Reflects(r.m, limit, r.accepted) && Chain(r.accepted)
    ensures var r' := Perform(clock, r, op, t).0; Reflects(r'.m, limit, r'.accepted) && Chain(r'.accepted)
  {
    hide Perform, Commit, Reflects, Chain, IsBlock;
    var a, events := PerformIsOneBlock(clock, r, op, t);
    if !(op.ApplyOp? && !Applicable(op.result)) {
      ApplyDescribes(r.m, NextId(r.m.nextId), a.result, a.apply.appliedAt);
      CommitReflects(r.m, limit, r.accepted, a);
    }
  }

  // ---------------------------------------------------------------- consequences

  /** Last-known-good: the current snapshot is the latest published one, in full, and agrees with the
      record of the latest success; a failure never removes it. */
  lemma LastKnownGood<T>(m: State<T>, limit: int, accepted: seq<Accepted<T>>)
    requires Reflects(m, limit, accepted) && Chain(accepted)
    ensures m.current.Some? <==> m.lastSuccess.Some?
    ensures m.current.Some? ==>
      && m.current.value.metadata.source == m.lastSuccess.value.source
      && m.current.value.metadata.revision == m.lastSuccess.value.revision
      && m.current.value.metadata.checksum == m.lastSuccess.value.checksum != ""
    ensures LifecycleStateOf(m) == StateAfter(accepted)
    ensures MetadataOf(m.current) == CurrentAfter(accepted)
  {
    var success := Latest(accepted, StatusSucceeded);
    if success >= 0 {
      assert LinkOk(accepted, success);
    }
    if accepted != [] {
      assert LinkOk(accepted, |accepted| - 1);
    }
  }

  /** Once something has been published, the manager is never unloaded or failed again. */
  lemma NeverUnloadedAgain<T>(accepted: seq<Accepted<T>>, i: nat)
    requires i < |accepted| && accepted[i].result.attempt.status == StatusSucceeded
    ensures StateAfter(accepted) == StateLoaded || StateAfter(accepted) == StateDegraded
  {
  }

  /** Retained attempts have consecutive identifiers ending at the counter. */
  lemma HistoryIds<T>(m: State<T>, limit: int, accepted: seq<Accepted<T>>, i: nat)
    requires Reflects(m, limit, accepted) && Chain(accepted)
    ensures |m.history| == if |accepted| <= Capacity(limit) then |accepted| else Capacity(limit)
    ensures i < |m.history| ==> m.history[i].id == (|accepted| - |m.history| + i + 1) % ID_SPACE
  {
    if i < |m.history| {
      var k := |accepted| - |m.history| + i;
      assert m.history[i] == Records(accepted)[k];
      assert LinkOk(accepted, k);
    }
  }

  /** What the option of `WithAttemptHistoryLimit` means: the 20 newest attempts without it, none for zero or less. */
  lemma RetainedByOption<T>(m: State<T>, option: Option<int>, accepted: seq<Accepted<T>>)
    requires Reflects(m, ConfiguredLimit(option), accepted) && Chain(accepted)
    ensures var most := if option.None? then 20 else if option.value <= 0 then 0 else option.value;
      |m.history| == if |accepted| <= most then |accepted| else most
  {
    HistoryIds(m, ConfiguredLimit(option), accepted, 0);
  }

  /** No identifier repeats among fewer than 2^64 consecutive attempts. */
  lemma IdsDistinct<T>(accepted: seq<Accepted<T>>, i: nat, j: nat)
    requires Chain(accepted) && i < j < |accepted| && j - i < ID_SPACE
    ensures accepted[i].result.attempt.id != accepted[j].result.attempt.id
  {
    assert LinkOk(accepted, i) && LinkOk(accepted, j);
  }

  /** `Previous` of each accepted result is `Current` of the one before it; the first has none. */
  lemma ApplyChain<T>(accepted: seq<Accepted<T>>, i: nat)
    requires Chain(accepted) && i < |accepted|
    ensures accepted[i].apply.previous == if i == 0 then None else accepted[i - 1].apply.current
    ensures !accepted[i].apply.published ==> accepted[i].apply.current == accepted[i].apply.previous
  {
    assert LinkOk(accepted, i);
    if i > 0 {
      assert LinkOk(accepted, i - 1);
    }
    var upTo := accepted[..i];
    assert accepted[..i + 1] == upTo + [accepted[i]];
    LatestOfExtension(upTo, accepted[i], StatusSucceeded);
  }

  /** The checksums published so far, in order. */
  function PublishedChecksums<T>(accepted: seq<Accepted<T>>): seq<string> {
    if accepted == [] then []
    else
      var last := accepted[|accepted| - 1];
      PublishedChecksums(accepted[..|accepted| - 1])
      + (if last.apply.published then [last.result.attempt.checksum] else [])
  }

  /** How often a sequence changes, counting its first element as a change. */
  function Transitions(s: seq<string>): nat {
    var n := |s|;
    if n == 0 then 0
    else Transitions(s[..n - 1]) + (if n == 1 || s[n - 2] != s[n - 1] then 1 else 0)
  }

  function ChangedCount<T>(accepted: seq<Accepted<T>>): nat {
    if accepted == [] then 0
    else ChangedCount(accepted[..|accepted| - 1]) + (if accepted[|accepted| - 1].apply.changed then 1 else 0)
  }

  lemma {:induction false} LastPublishedIsCurrent<T>(accepted: seq<Accepted<T>>)
    requires Chain(accepted)
    ensures var sums := PublishedChecksums(accepted);
      if sums == [] then CurrentAfter(accepted).None?
      else CurrentAfter(accepted).Some? && CurrentAfter(accepted).value.checksum == sums[|sums| - 1]
    decreases |accepted|
  {
    if accepted != [] {
      hide StateAfter, InvalidReason;
      var n := |accepted| - 1;
      ChainPrefix(accepted, n);
      LastPublishedIsCurrent(accepted[..n]);
      assert LinkOk(accepted, n);
      ApplicableShape(accepted[n].result);
      assert accepted == accepted[..n] + [accepted[n]];
      LatestOfExtension(accepted[..n], accepted[n], StatusSucceeded);
    }
  }

  lemma ChainPrefix<T>(accepted: seq<Accepted<T>>, n: nat)
    requires Chain(accepted) && n <= |accepted|
    ensures Chain(accepted[..n])
  {
    forall i | 0 <= i < n ensures LinkOk(accepted[..n], i) {
      assert LinkOk(accepted, i);
      assert accepted[..n][..i] == accepted[..i] && accepted[..n][..i + 1] == accepted[..i + 1];
    }
  }

  /** The number of `Changed` results is the number of checksum transitions among what was published. */
  lemma {:induction false} ChangedIsTransitions<T>(accepted: seq<Accepted<T>>)
    requires Chain(accepted)
    ensures ChangedCount(accepted) == Transitions(PublishedChecksums(accepted))
    decreases |accepted|
  {
    if accepted != [] {
      var n := |accepted| - 1;
      ChainPrefix(accepted, n);
      ChangedIsTransitions(accepted[..n]);
      ChangedStep(accepted);
    }
  }

  lemma {:induction false} ChangedStep<T>(accepted: seq<Accepted<T>>)
    requires accepted != [] && Chain(accepted) && Chain(accepted[..|accepted| - 1])
    ensures Transitions(PublishedChecksums(accepted)) ==
            Transitions(PublishedChecksums(accepted[..|accepted| - 1]))
            + (if accepted[|accepted| - 1].apply.changed then 1 else 0)
  {
    hide CurrentAfter, StateAfter, Transitions, Applicable;
    var n := |accepted| - 1;
    var before := accepted[..n];
    LastPublishedIsCurrent(before);
    LastPublishedIsCurrent(accepted);
    assert LinkOk(accepted, n);
    assert accepted[..n + 1] == accepted;
    if accepted[n].apply.published {
      TransitionsStep(PublishedChecksums(before), accepted[n].result.attempt.checksum);
    } else {
      assert PublishedChecksums(accepted) == PublishedChecksums(before);
    }
  }

  lemma {:induction false} TransitionsStep(s: seq<string>, next: string)
    ensures Transitions(s + [next]) == Transitions(s) + (if s == [] || s[|s| - 1] != next then 1 else 0)
  {
    assert (s + [next])[..|s|] == s;
  }
}
