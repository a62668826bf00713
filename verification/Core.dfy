/** The values Configkit passes around: identifiers, metadata, attempt records, snapshots,
    apply results and events, all as immutable values.

    Where the program uses a string type with named constants (attempt kind, status, stage,
    failure code, lifecycle state), the constants are constructors, the empty string is a
    constructor of its own, and every other string is covered by an `Other` constructor. */
module Core {

  datatype Option<+V> = None | Some(value: V)

  /** A wall-clock reading; 0 is Go's zero time. Readings are unordered unless a lemma says so. */
  type Time = int

  const ZERO_TIME: Time := 0

  /** Attempt identifiers are unsigned 64-bit and wrap around. */
  const ID_SPACE: nat := 0x1_0000_0000_0000_0000

  function NextId(id: nat): nat {
    (id + 1) % ID_SPACE
  }

  /** The write side of a read/write lock: a writer that has called `Lock` keeps new readers out, and holds the
      lock once the readers already inside have left. */
  datatype WriteLock = Unlocked | Requested(tid: nat) | Held(tid: nat)

  datatype AttemptKind = KindNone | KindInitialLoad | KindReload | KindOther(name: string)

  datatype AttemptStatus = StatusNone | StatusSucceeded | StatusFailed | StatusOther(name: string)

  datatype AttemptStage =
    | StageNone
    | StageContext
    | StageSourceRead
    | StagePipelineValidate
    | StageDecode
    | StageDefaults
    | StageValidateConfig
    | StageCopy
    | StageRedact
    | StageChecksum
    | StageOther(name: string)

  datatype FailureCode =
    | CodeNone
    | CodeCanceled
    | CodeDeadlineExceeded
    | CodeMissingSource
    | CodeContextFailed
    | CodeSourceReadFailed
    | CodePipelineValidateFailed
    | CodeDecodeFailed
    | CodeDefaultsFailed
    | CodeValidateConfigFailed
    | CodeCopyFailed
    | CodeRedactFailed
    | CodeChecksumFailed
    | CodeLoadFailed
    | CodeReloadFailed
    | CodeOther(name: string)

  datatype LifecycleState =
    | StateNone
    | StateUnloaded
    | StateLoaded
    | StateFailed
    | StateDegraded

  /** The public failure detail, as a value. */
  datatype FailureDetail = FailureDetail(code: FailureCode, message: string)

  datatype SourceMetadata = SourceMetadata(name: string, kind: string, description: string)

  const NO_METADATA := SourceMetadata("", "", "")

  /** An opaque value stored under one key of a redacted view. */
  datatype Any = Any(token: int)

  /** `None` is Go's nil map. */
  type RedactedView = Option<map<string, Any>>

  datatype SnapshotMetadata = SnapshotMetadata(
    source: SourceMetadata,
    revision: string,
    checksum: string,
    loadedAt: Time
  )

  /** The three fields are unexported in the program and never written after construction. */
  datatype Snapshot<+T> = Snapshot(value: T, metadata: SnapshotMetadata, redacted: RedactedView)

  datatype AttemptRecord = AttemptRecord(
    id: nat,
    kind: AttemptKind,
    status: AttemptStatus,
    stage: AttemptStage,
    source: SourceMetadata,
    revision: string,
    checksum: string,
    startedAt: Time,
    endedAt: Time,
    failure: Option<FailureDetail>
  )

  datatype LoadResult<+T> = LoadResult(snapshot: Option<Snapshot<T>>, attempt: AttemptRecord)

  datatype ApplyResult = ApplyResult(
    published: bool,
    changed: bool,
    previous: Option<SnapshotMetadata>,
    current: Option<SnapshotMetadata>,
    managerState: LifecycleState,
    appliedAt: Time
  )

  const NO_APPLY := ApplyResult(false, false, None, None, StateNone, ZERO_TIME)

  datatype EventKind = LoadStarted | LoadSucceeded | LoadFailed | SnapshotApplied

  datatype Event = Event(
    kind: EventKind,
    managerState: LifecycleState,
    attemptId: nat,
    attemptKind: AttemptKind,
    source: SourceMetadata,
    revision: string,
    attempt: Option<AttemptRecord>,
    snapshot: Option<SnapshotMetadata>,
    apply: Option<ApplyResult>,
    occurredAt: Time
  )

  function MetadataOf<T>(snapshot: Option<Snapshot<T>>): Option<SnapshotMetadata> {
    match snapshot
    case None => None
    case Some(s) => Some(s.metadata)
  }
}
