/** What every interleaving guarantees: serializability, the event protocol at every instant, and reads that
    never mix two states or go back. */
module ConcurrentLaws {
  import opened Core
  import opened Errors
  import opened Lifecycle
  import opened LoadLaws
  import opened RunLaws
  import opened EventLaws
  import opened LoadSteps
  import opened OperationLaws
  import opened Pipelines
  import opened Views
  import opened Concurrent

  // ---------------------------------------------------------------- serializability

  /** Whenever the token is free, the manager, its log and its source calls are those of the admitted
      operations replayed one after another, in the order in which they were admitted. */
  lemma {:induction false} Serializability<T>(clock: nat -> Time, limit: int, actions: seq<Action<T>>)
    ensures var s := Exec(clock, limit, actions);
      && |s.completions| == |s.entries|
      && s.held <= 1
      && (s.held == 0 ==> s.run == Replay(clock, limit, s.entries) && s.admissions == s.completions)
  {
    hide Replay, ReplyInv, ReaderInv, LockInv, Explains;
    var s := Exec(clock, limit, actions);
    ExecKeeps(clock, limit, actions);
    if s.held == 0 {
      NoHolder(s.threads, s.held);
      forall t | t in s.threads ensures !Inside(s.threads[t]) {
      }
    }
  }

  /** The channel holds exactly the tokens of the goroutines between their send and their receive, at most
      one; so neither receive finds the channel empty, and nobody else is touching the counter. */
  lemma {:induction false} ReceivesNeverBlock<T>(clock: nat -> Time, limit: int, actions: seq<Action<T>>, tid: nat)
    ensures var s := Exec(clock, limit, actions);
      && s.held == |Holders(s.threads)| <= 1
      && (tid in s.threads && HasToken(s.threads[tid]) ==> s.held == 1 && Holders(s.threads) == {tid})
  {
    hide Exec, RunInv, OrderInv, ReplyInv, ReaderInv, LockInv, HasToken;
    var s := Exec(clock, limit, actions);
    ExecKeeps(clock, limit, actions);
    if tid in s.threads && HasToken(s.threads[tid]) {
      SoleHolder(s.threads, s.held, tid);
    }
  }

  /** A call that returned is exactly one entry of the replay, and its reply is the one the replay gives;
      every entry of the replay is such a call. */
  lemma {:induction false} RepliesAreSequential<T>(clock: nat -> Time, limit: int, actions: seq<Action<T>>, tid: nat)
    ensures var s := Exec(clock, limit, actions);
      && (tid in s.completions <==> tid in s.threads && s.threads[tid].Returned?)
      && (tid in s.threads && s.threads[tid].Returned? ==>
            var Returned(op, t, reply, place) := s.threads[tid];
            && place < |s.entries| == |s.completions|
            && s.completions[place] == tid && s.entries[place] == Entry(op, t)
            && reply == Perform(clock, Replay(clock, limit, s.entries[..place]), op, t).1
            && forall i | 0 <= i < |s.completions| && s.completions[i] == tid :: i == place)
  {
    hide Replay, Perform, TokenInv, RunInv, LockInv, ReaderInv;
    var s := Exec(clock, limit, actions);
    ExecKeeps(clock, limit, actions);
    if tid in s.threads {
      assert ReplyOk(clock, limit, s.entries, s.completions, tid, s.threads[tid]);
    }
  }

  /** Before its admission a caller changes neither the run nor the order of operations. */
  lemma WaitingIsInert<T>(clock: nat -> Time, s: System<T>, tid: nat, preferDone: bool, delay: nat)
    requires tid in s.threads
    requires s.threads[tid].Entering? || s.threads[tid].Selecting? || s.threads[tid].Rechecking?
    ensures var s' := Act(clock, s, Step(tid, preferDone, delay));
      && s'.run == s.run && s'.entries == s.entries && s'.completions == s.completions
      && (s'.admissions != s.admissions ==>
            s.threads[tid].Rechecking? && s.threads[tid].op.ctx.Err(s.now).None? && s'.threads[tid].Admitted?)
  {
  }

  /** A caller that was turned away was so by its own context, was never admitted, and is no part of the
      replay: no state, identifier, event or source call comes from it. */
  lemma {:induction false} TurnedAwayLeavesNoTrace<T>(clock: nat -> Time, limit: int, actions: seq<Action<T>>, tid: nat)
    requires var s := Exec(clock, limit, actions); tid in s.threads && s.threads[tid].Turned?
    ensures var s := Exec(clock, limit, actions);
      && tid !in s.admissions && tid !in s.completions
      && s.threads[tid].op.ctx.doneFrom.Some?
      && s.threads[tid].cause == s.threads[tid].op.ctx.cause
  {
    hide Replay, Perform, RunInv, LockInv, ReaderInv;
    var s := Exec(clock, limit, actions);
    ExecKeeps(clock, limit, actions);
    assert ReplyOk(clock, limit, s.entries, s.completions, tid, s.threads[tid]);
    if t :| t in s.threads && Inside(s.threads[t]) {
      assert s.admissions == s.completions + [t];
    }
  }

  // ---------------------------------------------------------------- nothing recorded is ever rewritten

  ghost predicate Persists<T>(s: System<T>, s': System<T>) {
    && s.entries <= s'.entries && s.completions <= s'.completions
    && s.run.accepted <= s'.run.accepted && s.run.log <= s'.run.log
    && s.now <= s'.now
    && (forall t | t in s.threads :: t in s'.threads && (s.threads[t].Returned? ==> s'.threads[t] == s.threads[t]))
  }

  lemma MoveAppends<T>(clock: nat -> Time, th: Thread<T>, run: Run<T>, now: nat)
    ensures var moved := Move(clock, th, run, now);
      && moved.run.accepted == run.accepted
      && run.log <= moved.run.log
      && now <= moved.now
      && (th.Returned? ==> moved.thread == th)
  {
    hide OutcomeOf, Applicable, InvalidReason;
  }

  lemma WriteAppends<T>(clock: nat -> Time, th: Thread<T>, run: Run<T>, now: nat)
    requires th.Writing?
    ensures var moved := WriteStep(clock, th, run, now);
      run.accepted <= moved.run.accepted && moved.run.log == run.log && now <= moved.now
  {
  }

  lemma ActPersists<T>(clock: nat -> Time, s: System<T>, a: Action<T>)
    ensures Persists(s, Act(clock, s, a))
  {
    hide StepThread;
    if a.Step? && a.tid in s.threads {
      StepPersists(clock, s, a.tid, s.threads[a.tid], a.preferDone, a.delay);
    }
  }

  lemma StepPersists<T>(clock: nat -> Time, s: System<T>, tid: nat, th: Thread<T>, preferDone: bool, delay: nat)
    requires tid in s.threads && s.threads[tid] == th
    ensures Persists(s, StepThread(clock, s, tid, th, preferDone, delay))
  {
    hide Move, WriteStep, StatusOf, RedactedIn;
    if th.Writing? {
      WriteAppends(clock, th, s.run, s.now);
    } else {
      MoveAppends(clock, th, s.run, s.now);
    }
  }

  lemma {:induction false} ExecPersists<T>(clock: nat -> Time, limit: int, actions: seq<Action<T>>,
                                           more: seq<Action<T>>)
    ensures Persists(Exec(clock, limit, actions), Exec(clock, limit, actions + more))
    decreases |more|
  {
    hide Act;
    if more == [] {
      assert actions + more == actions;
    } else {
      var n := |more| - 1;
      assert (actions + more)[..|actions + more| - 1] == actions + more[..n];
      ExecPersists(clock, limit, actions, more[..n]);
      ActPersists(clock, Exec(clock, limit, actions + more[..n]), more[n]);
    }
  }

  /** The replay respects real time: a call that returned before another was made comes before it. */
  lemma {:induction false} RealTimeOrder<T>(clock: nat -> Time, limit: int, actions: seq<Action<T>>,
                                            more: seq<Action<T>>, first: nat, second: nat)
    requires var s := Exec(clock, limit, actions);
      first in s.threads && s.threads[first].Returned? && second !in s.threads
    requires var s' := Exec(clock, limit, actions + more);
      second in s'.threads && s'.threads[second].Returned?
    ensures var s' := Exec(clock, limit, actions + more);
      && first in s'.threads && s'.threads[first].Returned?
      && s'.threads[first].place < s'.threads[second].place
  {
    hide Exec, Replay, Perform;
    var s, s' := Exec(clock, limit, actions), Exec(clock, limit, actions + more);
    ExecPersists(clock, limit, actions, more);
    RepliesAreSequential(clock, limit, actions, first);
    RepliesAreSequential(clock, limit, actions, second);
    RepliesAreSequential(clock, limit, actions + more, second);
    assert s'.completions[..|s.completions|] == s.completions;
    assert second !in s.completions;
  }

  // ---------------------------------------------------------------- the log, at every instant

  ghost predicate Begins<T>(part: Run<T>, whole: Run<T>) {
    part.log <= whole.log && part.accepted <= whole.accepted
  }

  /** What the holder has logged and accepted so far begins what its operation would log and accept alone. */
  lemma HolderBegins<T>(clock: nat -> Time, th: Thread<T>, base: Run<T>, run: Run<T>)
    requires Inside(th) && Explains(clock, th, base, run)
    ensures Begins(run, Perform(clock, base, th.op, th.t).0)
  {
    if th.Locking? || th.Draining? || th.Writing? || th.Committed? || th.Finished? {
      ResultBegins(clock, th, base, run);
    } else if th.Releasing? {
      hide Perform;
    } else {
      StartBegins(clock, th, base, run);
    }
  }

  /** Up to the load, the holder has logged nothing, or its `load_started`. */
  lemma StartBegins<T>(clock: nat -> Time, th: Thread<T>, base: Run<T>, run: Run<T>)
    requires th.Admitted? || th.Fetched? || th.Numbered? || th.Announcing? || th.Announced? || th.Loading?
    requires Explains(clock, th, base, run)
    ensures Begins(run, Perform(clock, base, th.op, th.t).0)
  {
    hide Perform, OutcomeOf, Applicable, LifecycleStateOf, StartedEvent, AnnouncedSource;
    PerformBegins(clock, base, th.op, th.t);
  }

  lemma PerformBegins<T>(clock: nat -> Time, base: Run<T>, op: Op<T>, t: Moments)
    ensures var whole := Perform(clock, base, op, t).0;
      && Begins(base, whole)
      && (!op.ApplyOp? ==> Begins(Announce(clock, Begin(base, op), op, t), whole))
  {
    hide OutcomeOf, Applicable, InvalidReason, Commit, ApplyOf, LifecycleStateOf, AnnouncedSource;
    hide StartedEvent, FinishedEvent, AppliedEvent;
  }

  /** From then on, the holder is on its way to the finished run, and has at most `snapshot_applied` left. */
  lemma ResultBegins<T>(clock: nat -> Time, th: Thread<T>, base: Run<T>, run: Run<T>)
    requires th.Locking? || th.Draining? || th.Writing? || th.Committed? || th.Finished?
    requires Explains(clock, th, base, run)
    ensures Begins(run, Perform(clock, base, th.op, th.t).0)
  {
    hide Perform, Applicable, Commit, ApplyOf, Partly, ReadyRun, ResultOf, ErrOf, FinishedEvent, LifecycleStateOf;
    PerformFromReady(clock, base, th.op, th.t);
  }

  /** The completed operations, and the one in progress: that of the caller admitted last, until it releases. */
  function SoFar<T>(s: System<T>): seq<Entry<T>> {
    var n := |s.admissions|;
    if n > 0 && s.admissions[n - 1] in s.threads && Inside(s.threads[s.admissions[n - 1]]) then
      var th := s.threads[s.admissions[n - 1]];
      s.entries + [Entry(th.op, th.t)]
    else s.entries
  }

  /** At every instant the log and the accepted results begin those of a sequential replay: of the completed
      operations, and of the one in progress if there is one. */
  lemma AlwaysBeginsAReplay<T>(clock: nat -> Time, limit: int, actions: seq<Action<T>>)
    ensures var s := Exec(clock, limit, actions); Begins(s.run, Replay(clock, limit, SoFar(s)))
  {
    hide Replay, Perform, Explains, ReplyInv, ReaderInv, LockInv;
    var s := Exec(clock, limit, actions);
    ExecKeeps(clock, limit, actions);
    if s.held == 0 {
      Serializability(clock, limit, actions);
      NoHolder(s.threads, s.held);
    } else {
      var tid :| tid in Holders(s.threads);
      var th := s.threads[tid];
      SoleHolder(s.threads, s.held, tid);
      if th.Rechecking? {
        RecheckingExplains(clock, th, Replay(clock, limit, s.entries), s.run);
        assert SoFar(s) == s.entries;
      } else {
        HolderBegins(clock, th, Replay(clock, limit, s.entries), s.run);
        assert SoFar(s) == s.entries + [Entry(th.op, th.t)];
        ReplayOneMore(clock, limit, s.entries, Entry(th.op, th.t));
      }
    }
  }

  /** Nothing is recorded, at any instant, that one admitted operation has not earned: it is what that operation made of
      its own caller's context, data and pipeline, or what its caller handed to `Apply`. */
  lemma RecordIsAlwaysEarned<T>(clock: nat -> Time, limit: int, actions: seq<Action<T>>, k: nat)
    returns (i: nat, err: Option<Error>, data: SourceData, trail: Trail<T>)
    requires k < |Exec(clock, limit, actions).run.accepted|
    ensures var s := Exec(clock, limit, actions);
      i < |SoFar(s)| && Earned(SoFar(s)[i], s.run.accepted[k], err, data, trail)
  {
    hide Replay, Earned, SoFar;
    AlwaysBeginsAReplay(clock, limit, actions);
    i, err, data, trail := RecordIsEarned(clock, limit, SoFar(Exec(clock, limit, actions)), k);
  }

  /** What the completed operations logged and recorded is in the log and the record, at every instant. */
  lemma CompletedBegin<T>(clock: nat -> Time, limit: int, actions: seq<Action<T>>)
    ensures var s := Exec(clock, limit, actions); Begins(Replay(clock, limit, s.entries), s.run)
  {
    hide Replay, Perform, Explains, OrderInv, ReplyInv, ReaderInv, LockInv;
    var s := Exec(clock, limit, actions);
    ExecKeeps(clock, limit, actions);
    if t :| t in Holders(s.threads) {
      HolderAdds(clock, s.threads[t], Replay(clock, limit, s.entries), s.run);
    }
  }

  lemma HolderAdds<T>(clock: nat -> Time, th: Thread<T>, base: Run<T>, run: Run<T>)
    requires HasToken(th) && Explains(clock, th, base, run)
    ensures Begins(base, run)
  {
    hide Perform, OutcomeOf, Applicable, ApplyOf, Commit, Partly, HasResult, ResultOf, ErrOf, FinishedEvent,
         StartedEvent, AnnouncedSource, LifecycleStateOf;
    if th.Releasing? {
      PerformBegins(clock, base, th.op, th.t);
    }
  }

  lemma {:induction false} ReplayAppends<T>(clock: nat -> Time, limit: int, entries: seq<Entry<T>>, n: nat)
    requires n <= |entries|
    ensures Begins(Replay(clock, limit, entries[..n]), Replay(clock, limit, entries))
    decreases |entries|
  {
    hide Perform;
    if n < |entries| {
      var shorter := entries[..|entries| - 1];
      assert shorter[..n] == entries[..n];
      ReplayAppends(clock, limit, shorter, n);
      PerformBegins(clock, Replay(clock, limit, shorter), entries[|entries| - 1].op, entries[|entries| - 1].t);
    } else {
      assert entries[..n] == entries;
    }
  }

  lemma RecheckingExplains<T>(clock: nat -> Time, th: Thread<T>, base: Run<T>, run: Run<T>)
    requires th.Rechecking? && Explains(clock, th, base, run)
    ensures run == base
  {
  }

  lemma {:induction false} ReplayOneMore<T>(clock: nat -> Time, limit: int, entries: seq<Entry<T>>, e: Entry<T>)
    ensures Replay(clock, limit, entries + [e]) == Perform(clock, Replay(clock, limit, entries), e.op, e.t).0
  {
    hide Perform;
    assert (entries + [e])[..|entries|] == entries;
  }

  lemma {:induction false} BrokenStays(r: Reader, log: seq<Emission>)
    requires r.at == Broken
    ensures ReadLog(r, log).at == Broken
    decreases |log|
  {
    if log != [] {
      BrokenStays(Read(r, log[0].event), log[1..]);
    }
  }

  /** Whenever anyone looks: the log follows the event protocol, every observer call saw the state it was
      told, and identifiers have no gaps and no repeats. */
  lemma {:induction false} LogIsAlwaysInProtocol<T>(clock: nat -> Time, limit: int, actions: seq<Action<T>>)
    ensures var r := Exec(clock, limit, actions).run;
      && ReadLog(FRESH_READER, r.log).at != Broken
      && Truthful(r.log)
      && forall i | 0 <= i < |r.accepted| :: r.accepted[i].result.attempt.id == (i + 1) % ID_SPACE
  {
    hide Exec, Replay, LinkOk;
    var r := Exec(clock, limit, actions).run;
    AlwaysBeginsAReplay(clock, limit, actions);
    var entries := SoFar(Exec(clock, limit, actions));
    var whole := Replay(clock, limit, entries);
    LogIsRead(clock, limit, entries);
    EventsAreTruthful(clock, limit, entries);
    ReplayReflects(clock, limit, entries);
    var rest := whole.log[|r.log|..];
    assert whole.log == r.log + rest;
    ReadLogAppend(FRESH_READER, r.log, rest);
    if ReadLog(FRESH_READER, r.log).at == Broken {
      BrokenStays(ReadLog(FRESH_READER, r.log), rest);
    }
    forall i | 0 <= i < |r.accepted| ensures r.accepted[i].result.attempt.id == (i + 1) % ID_SPACE {
      assert LinkOk(whole.accepted, i);
      LinkNumbers(whole.accepted, i);
    }
  }

  lemma LinkNumbers<T>(accepted: seq<Accepted<T>>, i: nat)
    requires i < |accepted| && LinkOk(accepted, i)
    ensures accepted[i].result.attempt.id == (i + 1) % ID_SPACE
  {
  }

  /** At quiescence the log alone gives the current snapshot and every accepted result it can show, and the
      counters balance, whoever did the work and in whatever order. */
  lemma {:induction false} QuiescentLog<T>(clock: nat -> Time, limit: int, actions: seq<Action<T>>)
    requires Exec(clock, limit, actions).held == 0
    ensures var r := Exec(clock, limit, actions).run;
            var c := Tally(r.log);
      && ReadLog(FRESH_READER, r.log) == Reader(Idle, VisiblePairs(r.accepted), MetadataOf(r.m.current))
      && c.started == c.completed == CountIf(r.accepted, (a: Accepted<T>) => !a.external)
      && c.published == c.completed - c.failed
                        + CountIf(r.accepted, (a: Accepted<T>) => a.external && a.apply.published)
      && c.changed == Transitions(PublishedChecksums(r.accepted))
  {
    hide Exec, Replay;
    var s := Exec(clock, limit, actions);
    Serializability(clock, limit, actions);
    LogIsRead(clock, limit, s.entries);
    CountersBalance(clock, limit, s.entries);
  }

  // ---------------------------------------------------------------- readers

  /** Every view any reader has obtained is, in all its parts, the view after one prefix of the accepted
      results, and the prefixes of successive views never shrink. */
  lemma {:induction false} ReadersSeePrefixes<T>(clock: nat -> Time, limit: int, actions: seq<Action<T>>, tid: nat)
    requires var s := Exec(clock, limit, actions);
      tid in s.threads && (s.threads[tid].Resting? || s.threads[tid].Viewing?)
    ensures var s := Exec(clock, limit, actions);
            var views := s.threads[tid].views;
      && (forall i | 0 <= i < |views| ::
            views[i].upTo <= |s.run.accepted|
            && var called := StateOf(limit, s.run.accepted[..views[i].upTo]);
               views[i].view == ViewOf(called) && views[i].snapshot == called.current)
      && (forall i, j | 0 <= i < j < |views| :: views[i].upTo <= views[j].upTo)
  {
    hide Exec, StateOf, ViewOf, TokenInv, RunInv, OrderInv, ReplyInv, LockInv;
    var s := Exec(clock, limit, actions);
    ExecKeeps(clock, limit, actions);
    var th := s.threads[tid];
    assert ReaderOk(limit, s.run, th);
    assert forall i | 0 <= i < |th.views| :: SeenOk(limit, s.run.accepted, th.views[i]);
  }

  /** Readers and the writer exclude each other. */
  lemma {:induction false} WriterExcludesReaders<T>(clock: nat -> Time, limit: int, actions: seq<Action<T>>, w: nat,
                                                    other: nat)
    requires var s := Exec(clock, limit, actions);
      w in s.threads && other in s.threads && w != other && s.threads[w].Writing?
    ensures var th := Exec(clock, limit, actions).threads[other]; !th.Writing? && !th.Viewing?
  {
    hide Exec, TokenInv, RunInv, OrderInv, ReplyInv, ReaderInv;
    var s := Exec(clock, limit, actions);
    ExecKeeps(clock, limit, actions);
    assert other !in s.readers;
  }

  function ViewsOf<T>(s: System<T>, tid: nat): seq<Observed<T>> {
    if tid in s.threads && (s.threads[tid].Resting? || s.threads[tid].Viewing?) then s.threads[tid].views else []
  }

  /** One action leaves a reader's views alone, or adds one of everything accepted by then. */
  lemma ActViews<T>(clock: nat -> Time, s: System<T>, a: Action<T>, tid: nat)
    ensures var s' := Act(clock, s, a);
      || ViewsOf(s', tid) == ViewsOf(s, tid)
      || (exists v: Observed<T> :: ViewsOf(s', tid) == ViewsOf(s, tid) + [v] && v.upTo == |s.run.accepted|)
  {
    hide StepThread;
    if a.Step? && a.tid in s.threads {
      StepViews(clock, s, a.tid, a.preferDone, a.delay, tid);
    }
  }

  lemma StepViews<T>(clock: nat -> Time, s: System<T>, actor: nat, preferDone: bool, delay: nat, tid: nat)
    requires actor in s.threads
    ensures var s' := StepThread(clock, s, actor, s.threads[actor], preferDone, delay);
      || ViewsOf(s', tid) == ViewsOf(s, tid)
      || (exists v: Observed<T> :: ViewsOf(s', tid) == ViewsOf(s, tid) + [v] && v.upTo == |s.run.accepted|)
  {
    hide Move, WriteStep, StatusOf, RedactedIn;
    var th := s.threads[actor];
    if th.Writing? {
      WriteIsNoReader(clock, th, s.run, s.now);
    } else if th.Resting? || th.Viewing? {
    } else {
      MoveIsNoReader(clock, th, s.run, s.now);
    }
  }

  lemma MoveIsNoReader<T>(clock: nat -> Time, th: Thread<T>, run: Run<T>, now: nat)
    requires !th.Resting? && !th.Viewing?
    ensures var th' := Move(clock, th, run, now).thread; !th'.Resting? && !th'.Viewing?
  {
    hide OutcomeOf, Applicable, InvalidReason;
  }

  lemma WriteIsNoReader<T>(clock: nat -> Time, th: Thread<T>, run: Run<T>, now: nat)
    requires th.Writing?
    ensures var th' := WriteStep(clock, th, run, now).thread; !th'.Resting? && !th'.Viewing?
  {
  }

  /** Reads are fresh: a view obtained after some instant reflects at least what was accepted by then. */
  lemma {:induction false} ReadsAreFresh<T>(clock: nat -> Time, limit: int, actions: seq<Action<T>>,
                                            more: seq<Action<T>>, tid: nat)
    ensures var before, after := Exec(clock, limit, actions), Exec(clock, limit, actions + more);
      && ViewsOf(before, tid) <= ViewsOf(after, tid)
      && forall i | |ViewsOf(before, tid)| <= i < |ViewsOf(after, tid)| ::
           |before.run.accepted| <= ViewsOf(after, tid)[i].upTo
    decreases |more|
  {
    hide Act, ViewsOf;
    if more == [] {
      assert actions + more == actions;
    } else {
      var n := |more| - 1;
      assert (actions + more)[..|actions + more| - 1] == actions + more[..n];
      ReadsAreFresh(clock, limit, actions, more[..n], tid);
      ExecPersists(clock, limit, actions, more[..n]);
      ActViews(clock, Exec(clock, limit, actions + more[..n]), more[n], tid);
    }
  }

  // ---------------------------------------------------------------- nobody waits for nothing

  /** A call or a read that has begun and is not over. */
  predicate Underway<T>(th: Thread<T>) {
    !th.Turned? && !th.Returned? && !th.Resting?
  }

  ghost predicate CanMove<T>(clock: nat -> Time, s: System<T>, tid: nat) {
    && tid in s.threads && Underway(s.threads[tid])
    && var s' := Act(clock, s, Step(tid, false, 0)); tid in s'.threads && s'.threads[tid] != s.threads[tid]
  }

  /** No deadlock: as long as any call or read is under way, some goroutine that is under way can move. A caller
      waits for the holder, the holder for readers, and readers for nobody but the holder. */
  lemma SomebodyMoves<T>(clock: nat -> Time, limit: int, actions: seq<Action<T>>, tid: nat)
    returns (mover: nat)
    requires var s := Exec(clock, limit, actions); tid in s.threads && Underway(s.threads[tid])
    ensures CanMove(clock, Exec(clock, limit, actions), mover)
  {
    hide Exec, Replay, Explains, OrderInv, ReplyInv, ReaderInv, LockInv, CanMove;
    var s := Exec(clock, limit, actions);
    ExecKeeps(clock, limit, actions);
    forall t | t in s.threads && HasToken(s.threads[t]) ensures Announces(s.threads[t]) {
      assert t in Holders(s.threads);
      AnnouncerIsManaged(clock, s.threads[t], Replay(clock, limit, s.entries), s.run);
    }
    if HasToken(s.threads[tid]) {
      mover := HolderOrReaderMoves(clock, s, tid);
    } else if s.threads[tid].Selecting? && s.held == 1 {
      var holder :| holder in Holders(s.threads);
      mover := HolderOrReaderMoves(clock, s, holder);
    } else {
      mover := tid;
      OutsiderMoves(clock, s, tid);
    }
  }

  /** Only managed loads announce themselves. */
  predicate Announces<T>(th: Thread<T>) {
    th.Announcing? || th.Announced? || th.Loading? ==> !th.op.ApplyOp?
  }

  lemma AnnouncerIsManaged<T>(clock: nat -> Time, th: Thread<T>, base: Run<T>, run: Run<T>)
    requires Explains(clock, th, base, run)
    ensures Announces(th)
  {
  }

  lemma OutsiderMoves<T>(clock: nat -> Time, s: System<T>, tid: nat)
    requires tid in s.threads && Underway(s.threads[tid]) && !HasToken(s.threads[tid])
    requires s.threads[tid].Selecting? ==> s.held == 0
    ensures CanMove(clock, s, tid)
  {
    hide StatusOf, RedactedIn;
  }

  lemma HolderOrReaderMoves<T>(clock: nat -> Time, s: System<T>, holder: nat) returns (mover: nat)
    requires TokenInv(s.threads, s.held) && LockInv(s) && holder in s.threads && HasToken(s.threads[holder])
    requires Announces(s.threads[holder])
    ensures CanMove(clock, s, mover)
  {
    hide CanMove;
    SoleHolder(s.threads, s.held, holder);
    var th := s.threads[holder];
    assert !s.lock.Unlocked? ==> HasToken(s.threads[s.lock.tid]);
    if th.Draining? && s.readers != {} {
      mover :| mover in s.readers;
      OutsiderMoves(clock, s, mover);
    } else {
      mover := holder;
      HolderMoves(clock, s, holder);
    }
  }

  lemma HolderMoves<T>(clock: nat -> Time, s: System<T>, tid: nat)
    requires tid in s.threads && HasToken(s.threads[tid]) && s.held == 1 && Announces(s.threads[tid])
    requires !s.lock.Unlocked? ==> s.threads[tid].Draining? || s.threads[tid].Writing?
    requires s.threads[tid].Draining? ==> s.readers == {}
    ensures CanMove(clock, s, tid)
  {
    hide Move, WriteStep;
    var th := s.threads[tid];
    if th.Writing? {
      WriteMoves(clock, th, s.run, s.now);
    } else if Inside(th) && !th.Locking? && !th.Draining? && !th.Releasing? {
      WorkMoves(clock, th, s.run, s.now);
    }
  }

  lemma WriteMoves<T>(clock: nat -> Time, th: Thread<T>, run: Run<T>, now: nat)
    requires th.Writing?
    ensures WriteStep(clock, th, run, now).thread != th
  {
  }

  lemma WorkMoves<T>(clock: nat -> Time, th: Thread<T>, run: Run<T>, now: nat)
    requires Inside(th) && !th.Locking? && !th.Draining? && !th.Writing? && !th.Releasing?
    requires Announces(th)
    ensures Move(clock, th, run, now).thread != th
  {
    hide OutcomeOf, Applicable, InvalidReason;
  }

  /** How many moves a call, or a read, can still make. */
  function MovesLeft<T>(th: Thread<T>): nat {
    match th
    case Entering(_) => 19
    case Selecting(_) => 18
    case Rechecking(_) => 17
    case Admitted(_, _) => 16
    case Fetched(_, _) => 15
    case Numbered(_, _, _) => 14
    case Announcing(_, _, _, _) => 13
    case Announced(_, _, _) => 12
    case Loading(_, _, _) => 11
    case Locking(_, _, _, _) => 10
    case Draining(_, _, _, _) => 9
    case Writing(_, _, _, _, phase, _) => 4 + (if phase <= 4 then 4 - phase else 0)
    case Committed(_, _, _, _, _) => 3
    case Finished(_, _, _, _, _) => 2
    case Releasing(_, _, _) => 1
    case Viewing(_, status, current, attempts) =>
      4 - (if status.None? then 0 else if current.None? then 1 else if attempts.None? then 2 else 3)
    case _ => 0
  }

  /** No livelock: a move of a call or a read that is under way brings it nearer to its end, and no other goroutine's
      step touches it. So, somebody always being able to move, everybody under way comes to an end. */
  lemma MovesRunOut<T>(clock: nat -> Time, s: System<T>, a: Action<T>, tid: nat)
    requires tid in s.threads && Underway(s.threads[tid])
    ensures var s' := Act(clock, s, a);
      && tid in s'.threads
      && (s'.threads[tid] == s.threads[tid]
          || (a.Step? && a.tid == tid && MovesLeft(s'.threads[tid]) < MovesLeft(s.threads[tid])))
  {
    hide StepThread, MovesLeft;
    if a.Step? && a.tid in s.threads {
      OthersStay(clock, s, a.tid, s.threads[a.tid], a.preferDone, a.delay, tid);
      if a.tid == tid {
        StepRunsOut(clock, s, tid, s.threads[tid], a.preferDone, a.delay);
      }
    }
  }

  lemma OthersStay<T>(clock: nat -> Time, s: System<T>, tid: nat, th: Thread<T>, preferDone: bool, delay: nat,
                      other: nat)
    requires tid in s.threads && other in s.threads
    ensures var threads := StepThread(clock, s, tid, th, preferDone, delay).threads;
      other in threads && (other != tid ==> threads[other] == s.threads[other])
  {
    hide Move, WriteStep, StatusOf, RedactedIn;
  }

  lemma StepRunsOut<T>(clock: nat -> Time, s: System<T>, tid: nat, th: Thread<T>, preferDone: bool, delay: nat)
    requires tid in s.threads && s.threads[tid] == th && Underway(th)
    ensures var threads := StepThread(clock, s, tid, th, preferDone, delay).threads;
      tid in threads && (threads[tid] == th || MovesLeft(threads[tid]) < MovesLeft(th))
  {
    hide Move, WriteStep, StatusOf, RedactedIn;
    MoveRunsOut(clock, th, s.run, s.now);
    WriteRunsOut(clock, th, s.run, s.now);
  }

  lemma MoveRunsOut<T>(clock: nat -> Time, th: Thread<T>, run: Run<T>, now: nat)
    ensures var th' := Move(clock, th, run, now).thread; th' == th || MovesLeft(th') < MovesLeft(th)
  {
    hide OutcomeOf, Applicable, InvalidReason, LifecycleStateOf;
  }

  lemma WriteRunsOut<T>(clock: nat -> Time, th: Thread<T>, run: Run<T>, now: nat)
    ensures th.Writing? ==> MovesLeft(WriteStep(clock, th, run, now).thread) < MovesLeft(th)
  {
  }

  /** A caller whose context has ended does not wait: its next step turns it away with the context's error, or takes a
      free token, and then the next but one does and gives the token back. */
  lemma EndedCallerLeaves<T>(clock: nat -> Time, s: System<T>, tid: nat, preferDone: bool, delay: nat)
    requires tid in s.threads
    requires var th := s.threads[tid];
      && (th.Entering? || th.Selecting? || (th.Rechecking? && s.held > 0))
      && th.op.ctx.Err(s.now).Some?
    ensures var th, s' := s.threads[tid], Act(clock, s, Step(tid, preferDone, delay));
            var th' := s'.threads[tid];
      && s'.run == s.run && s'.admissions == s.admissions
      && (if th'.Turned? then th'.cause == th.op.ctx.cause && s'.held == (if th.Rechecking? then s.held - 1 else s.held)
          else th.Selecting? && s.held == 0 && !preferDone && th'.Rechecking? && s'.held == 1)
  {
  }

  // ---------------------------------------------------------------- time

  ghost predicate NonDecreasing(clock: nat -> Time) {
    forall i: nat, j: nat | i <= j :: clock(i) <= clock(j)
  }

  ghost predicate InOrder(log: seq<Emission>, upTo: Time) {
    && (forall i, j | 0 <= i < j < |log| :: log[i].event.occurredAt <= log[j].event.occurredAt)
    && (forall i | 0 <= i < |log| :: log[i].event.occurredAt <= upTo)
  }

  lemma ActStamps<T>(clock: nat -> Time, s: System<T>, a: Action<T>)
    ensures var s' := Act(clock, s, a);
      || s'.run.log == s.run.log
      || (exists e: Emission :: s'.run.log == s.run.log + [e] && e.event.occurredAt == clock(s.now))
  {
    hide WriteStep, StatusOf, RedactedIn, OutcomeOf, Applicable, InvalidReason, LifecycleStateOf;
    if a.Step? && a.tid in s.threads && s.threads[a.tid].Writing? {
      WriteAppends(clock, s.threads[a.tid], s.run, s.now);
    }
  }

  /** If the wall clock never steps back, events are stamped in the order in which observers get them. */
  lemma {:induction false} EventsInTimeOrder<T>(clock: nat -> Time, limit: int, actions: seq<Action<T>>)
    requires NonDecreasing(clock)
    ensures var s := Exec(clock, limit, actions); InOrder(s.run.log, clock(s.now))
    decreases |actions|
  {
    hide Act;
    if actions != [] {
      var n := |actions| - 1;
      var s := Exec(clock, limit, actions[..n]);
      EventsInTimeOrder(clock, limit, actions[..n]);
      ActStamps(clock, s, actions[n]);
      ActPersists(clock, s, actions[n]);
    }
  }
}
