/** The same records on the heap, with the pointers the program has: `*opskit.Failure`,
    `*SnapshotMetadata`, `*AttemptRecord`, `*ApplyResult`, and maps. A struct is a datatype that holds
    pointers; `View` is its value, `Reach` the objects that can be reached (and mutated) through it. */
module Records {
  import opened Core
  import opened Lifecycle
  import opened RunLaws

  class Failure {
    var detail: FailureDetail

    constructor (detail: FailureDetail)
      ensures this.detail == detail
    {
      this.detail := detail;
    }
  }

  class MetadataCell {
    var value: SnapshotMetadata

    constructor (value: SnapshotMetadata)
      ensures this.value == value
    {
      this.value := value;
    }
  }

  class RedactedMap {
    var entries: map<string, Any>

    constructor (entries: map<string, Any>)
      ensures this.entries == entries
    {
      this.entries := entries;
    }
  }

  function FailureView(f: Failure?): Option<FailureDetail>
    reads f
  {
    if f == null then None else Some(f.detail)
  }

  function MetadataView(c: MetadataCell?): Option<SnapshotMetadata>
    reads c
  {
    if c == null then None else Some(c.value)
  }

  function RedactedViewOf(m: RedactedMap?): RedactedView
    reads m
  {
    if m == null then None else Some(m.entries)
  }

  ghost function Objects(o: object?): set<object> {
    if o == null then {} else {o}
  }

  /** `AttemptRecord`: `fields` holds everything but the failure, which is a pointer. */
  datatype Attempt = Attempt(fields: AttemptRecord, failure: Failure?) {
    function View(): AttemptRecord
      reads failure
    {
      fields.(failure := FailureView(failure))
    }

    ghost function Reach(): set<Failure> {
      if failure == null then {} else {failure}
    }
  }

  /** `ApplyResult`, with its two metadata pointers. */
  datatype Apply = Apply(fields: ApplyResult, previous: MetadataCell?, current: MetadataCell?) {
    function View(): ApplyResult
      reads previous, current
    {
      fields.(previous := MetadataView(previous), current := MetadataView(current))
    }

    ghost function Reach(): set<MetadataCell> {
      (if previous == null then {} else {previous}) + (if current == null then {} else {current})
    }
  }

  /** `LoadResult`: the snapshot's fields are private and immutable, the attempt's failure is a pointer. */
  datatype LoadRef<+T> = LoadRef(snapshot: Option<Snapshot<T>>, attempt: Attempt) {
    function View(): LoadResult<T>
      reads attempt.failure
    {
      LoadResult(snapshot, attempt.View())
    }
  }

  /** A stored record: nil, or a struct nobody else points to. */
  ghost function Held(a: Option<Attempt>): set<Failure> {
    if a.None? then {} else a.value.Reach()
  }

  ghost predicate Within(a: Option<Attempt>, owned: set<Failure>) {
    a.Some? && a.value.failure != null ==> a.value.failure in owned
  }

  ghost predicate WithinApply(a: Option<Apply>, owned: set<MetadataCell>) {
    a.Some? ==>
      && (a.value.previous != null ==> a.value.previous in owned)
      && (a.value.current != null ==> a.value.current in owned)
  }

  ghost function HeldView(a: Option<Attempt>): Option<AttemptRecord>
    reads Held(a)
  {
    if a.None? then None else Some(a.value.View())
  }

  ghost function HeldApply(a: Option<Apply>): set<MetadataCell> {
    if a.None? then {} else a.value.Reach()
  }

  ghost function HeldApplyView(a: Option<Apply>): Option<ApplyResult>
    reads HeldApply(a)
  {
    if a.None? then None else Some(a.value.View())
  }

  class AttemptCell {
    var value: Attempt

    constructor (value: Attempt)
      ensures this.value == value
    {
      this.value := value;
    }
  }

  class ApplyCell {
    var value: Apply

    constructor (value: Apply)
      ensures this.value == value
    {
      this.value := value;
    }
  }

  ghost function AttemptReach(c: AttemptCell?): set<object>
    reads c
  {
    if c == null then {} else {c} + c.value.Reach()
  }

  ghost function ApplyReach(c: ApplyCell?): set<object>
    reads c
  {
    if c == null then {} else {c} + c.value.Reach()
  }

  ghost function AttemptCellView(c: AttemptCell?): Option<AttemptRecord>
    reads AttemptReach(c)
  {
    if c == null then None else Some(c.value.View())
  }

  ghost function ApplyCellView(c: ApplyCell?): Option<ApplyResult>
    reads ApplyReach(c)
  {
    if c == null then None else Some(c.value.View())
  }

  /** `Event`: `fields` holds everything but the three pointers. */
  datatype EventRef = EventRef(fields: Event, attempt: AttemptCell?, snapshot: MetadataCell?, apply: ApplyCell?) {
    ghost function Reach(): set<object>
      reads attempt, apply
    {
      AttemptReach(attempt) + Objects(snapshot) + ApplyReach(apply)
    }

    ghost function View(): Event
      reads Reach()
    {
      fields.(attempt := AttemptCellView(attempt), snapshot := MetadataView(snapshot), apply := ApplyCellView(apply))
    }
  }

  // ---------------------------------------------------------------- clones

  method CloneFailure(f: Failure?) returns (out: Failure?)
    ensures FailureView(out) == FailureView(f)
    ensures fresh(Objects(out))
  {
    if f == null {
      out := null;
    } else {
      out := new Failure(f.detail);
    }
  }

  method CloneAttempt(a: Attempt) returns (out: Attempt)
    ensures out.View() == a.View()
    ensures fresh(out.Reach())
  {
    var failure := CloneFailure(a.failure);
    out := a.(failure := failure);
  }

  method CloneMetadata(c: MetadataCell?) returns (out: MetadataCell?)
    ensures MetadataView(out) == MetadataView(c)
    ensures fresh(Objects(out))
  {
    if c == null {
      out := null;
    } else {
      out := new MetadataCell(c.value);
    }
  }

  method CloneApply(a: Apply) returns (out: Apply)
    ensures out.View() == a.View()
    ensures fresh(out.Reach())
  {
    var previous := CloneMetadata(a.previous);
    var current := CloneMetadata(a.current);
    out := a.(previous := previous, current := current);
  }

  /** `cloneAttemptRecordPtr` and `cloneApplyResultPtr`, on a stored record. */
  method CloneHeld(a: Option<Attempt>) returns (out: AttemptCell?)
    ensures AttemptCellView(out) == HeldView(a)
    ensures fresh(AttemptReach(out))
  {
    if a.None? {
      out := null;
    } else {
      var value := CloneAttempt(a.value);
      out := new AttemptCell(value);
    }
  }

  method CloneHeldApply(a: Option<Apply>) returns (out: ApplyCell?)
    ensures ApplyCellView(out) == HeldApplyView(a)
    ensures fresh(ApplyReach(out))
  {
    if a.None? {
      out := null;
    } else {
      var value := CloneApply(a.value);
      out := new ApplyCell(value);
    }
  }

  method CloneAttemptCell(c: AttemptCell?) returns (out: AttemptCell?)
    ensures AttemptCellView(out) == AttemptCellView(c)
    ensures fresh(AttemptReach(out))
  {
    if c == null {
      out := null;
    } else {
      var value := CloneAttempt(c.value);
      out := new AttemptCell(value);
    }
  }

  method CloneApplyCell(c: ApplyCell?) returns (out: ApplyCell?)
    ensures ApplyCellView(out) == ApplyCellView(c)
    ensures fresh(ApplyReach(out))
  {
    if c == null {
      out := null;
    } else {
      var value := CloneApply(c.value);
      out := new ApplyCell(value);
    }
  }

  method CloneEvent(e: EventRef) returns (out: EventRef)
    ensures out.View() == e.View()
    ensures fresh(out.Reach())
  {
    var attempt := CloneAttemptCell(e.attempt);
    var snapshot := CloneMetadata(e.snapshot);
    var apply := CloneApplyCell(e.apply);
    out := EventRef(e.fields, attempt, snapshot, apply);
  }

  /** `newFailure`, where a result has a failure at all. */
  method NewFailure(detail: Option<FailureDetail>) returns (out: Failure?)
    ensures FailureView(out) == detail
    ensures fresh(Objects(out))
  {
    if detail.None? {
      out := null;
    } else {
      out := new Failure(detail.value);
    }
  }

  method NewMetadata(metadata: Option<SnapshotMetadata>) returns (out: MetadataCell?)
    ensures MetadataView(out) == metadata
    ensures fresh(Objects(out))
  {
    if metadata.None? {
      out := null;
    } else {
      out := new MetadataCell(metadata.value);
    }
  }

  /** `cloneRedactedView`: a fresh map, filled key by key; nil stays nil. */
  method CloneRedacted(view: RedactedView) returns (out: RedactedMap?)
    ensures RedactedViewOf(out) == view
    ensures fresh(Objects(out))
  {
    if view.None? {
      return null;
    }
    out := new RedactedMap(map[]);
    var rest := view.value.Keys;
    while rest != {}
      invariant fresh(out)
      invariant rest <= view.value.Keys
      invariant out.entries == map k | k in view.value && k !in rest :: view.value[k]
      decreases rest
    {
      var k :| k in rest;
      out.entries := out.entries[k := view.value[k]];
      rest := rest - {k};
    }
    assert out.entries == view.value;
  }

  /** `NewSnapshot` copies the map it is given, so later writes to it do not reach the snapshot. */
  method NewSnapshot<T>(value: T, metadata: SnapshotMetadata, redacted: RedactedMap?) returns (s: Snapshot<T>)
    ensures s == Snapshot(value, metadata, RedactedViewOf(redacted))
  {
    var copy := CloneRedacted(if redacted == null then None else Some(redacted.entries));
    s := Snapshot(value, metadata, if copy == null then None else Some(copy.entries));
  }

  // ---------------------------------------------------------------- the history slice

  ghost function Failures(structs: seq<Attempt>): set<Failure> {
    set a: Attempt | a in structs && a.failure != null :: a.failure
  }

  /** The structs of a slice have these values. */
  ghost predicate Shows(structs: seq<Attempt>, values: seq<AttemptRecord>)
    reads Failures(structs)
  {
    |structs| == |values| && forall i | 0 <= i < |structs| :: Show(structs, i) == values[i]
  }

  ghost function Show(structs: seq<Attempt>, i: nat): AttemptRecord
    requires i < |structs|
    reads Failures(structs)
  {
    assert structs[i].failure != null ==> structs[i].failure in Failures(structs);
    structs[i].View()
  }

  /** Appending one struct and keeping the last `limit` is `Remember` on the values. */
  lemma ShowsRemembered(structs: seq<Attempt>, values: seq<AttemptRecord>, a: Attempt, limit: int,
                        structs': seq<Attempt>)
    requires Shows(structs, values) && limit >= 0
    requires structs' == Suffix(structs + [a], Capacity(limit))
    ensures Shows(structs', Remember(values, a.View(), limit))
    ensures Failures(structs') <= Failures(structs) + (if a.failure == null then {} else {a.failure})
  {
    var values' := Remember(values, a.View(), limit);
    var d := |structs| + 1 - |structs'|;
    forall i | 0 <= i < |structs'| ensures Show(structs', i) == values'[i] {
      assert structs'[i] == (structs + [a])[d + i];
      if d + i < |structs| {
        assert Show(structs, d + i) == values[d + i];
      }
    }
    forall x | x in structs' ensures x in structs || x == a {
    }
  }

  /** `append` on a full backing array: the elements move to a longer one. */
  method Grow(buffer: array<Attempt>) returns (longer: array<Attempt>)
    ensures fresh(longer) && longer.Length > buffer.Length
    ensures longer[..buffer.Length] == buffer[..]
  {
    longer := new Attempt[2 * buffer.Length + 1];
    for i := 0 to buffer.Length
      invariant longer[..i] == buffer[..i]
    {
      longer[i] := buffer[i];
    }
    assert buffer[..buffer.Length] == buffer[..];
  }

  /** `copy` of the last `limit` elements over the front: the ranges may overlap, and the copy goes upwards, so
      every element is read before it is written. */
  method ShiftDown(buffer: array<Attempt>, length: nat, limit: nat)
    requires limit <= length <= buffer.Length
    modifies buffer
    ensures buffer[..limit] == old(buffer[length - limit..length])
  {
    var shift := length - limit;
    for i := 0 to limit
      invariant buffer[..i] == old(buffer[shift..shift + i])
      invariant forall j | i <= j < buffer.Length :: buffer[j] == old(buffer[j])
    {
      buffer[i] := buffer[shift + i];
    }
  }

  /** The slice half of `recordAttemptLocked`: append (growing the backing array when it is full), and
      when the result is too long, copy the last `limit` elements over the front, in place, and cut.
      The prefix in use ends up as the last `limit` elements of the appended sequence. */
  method AppendBounded(buffer: array<Attempt>, length: nat, attempt: Attempt, limit: nat)
    returns (buffer': array<Attempt>, length': nat)
    requires length <= buffer.Length && length <= limit && limit > 0
    modifies buffer
    ensures length' <= buffer'.Length && (buffer' == buffer || fresh(buffer'))
    ensures buffer'[..length'] == Suffix(old(buffer[..length]) + [attempt], limit)
  {
    ghost var longer := buffer[..length] + [attempt];
    buffer' := buffer;
    if length == buffer.Length {
      buffer' := Grow(buffer);
      assert buffer[..] == buffer[..length];
    }
    buffer'[length] := attempt;
    length' := length + 1;
    assert buffer'[..length'] == longer;
    if length' > limit {
      assert buffer'[length' - limit..length'] == longer[length' - limit..];
      ShiftDown(buffer', length', limit);
      length' := limit;
    }
  }

  /** `attemptHistory`: a slice of structs with pointers, its backing array, and the objects behind it. */
  class AttemptSlice {
    var buffer: array<Attempt>
    var length: nat
    ghost var values: seq<AttemptRecord>
    // the failures its structs point to
    ghost var failures: set<Failure>

    ghost predicate Valid()
      reads this, buffer, failures
    {
      && length <= buffer.Length
      && Failures(buffer[..length]) <= failures
      && Shows(buffer[..length], values)
    }

    constructor ()
      ensures Valid() && fresh(buffer) && values == [] && failures == {}
    {
      var empty := new Attempt[0];
      buffer, length, values, failures := empty, 0, [], {};
    }

    /** `recordAttemptLocked`: a clone of the attempt is appended, whatever the caller does with its own. */
    method Record(attempt: Attempt, attemptHistoryLimit: int)
      requires Valid() && |values| <= Capacity(attemptHistoryLimit)
      modifies this, buffer
      ensures Valid() && fresh(failures - old(failures)) && (buffer == old(buffer) || fresh(buffer))
      ensures values == Remember(old(values), old(attempt.View()), attemptHistoryLimit)
      ensures |values| <= Capacity(attemptHistoryLimit)
    {
      var limit := attemptHistoryLimit;
      if limit == 0 {
        limit := DEFAULT_ATTEMPT_HISTORY_LIMIT;
      }
      if limit < 0 {
        return;
      }
      ghost var before, shown := buffer[..length], values;
      var stored := CloneAttempt(attempt);
      values := Remember(values, stored.View(), attemptHistoryLimit);
      buffer, length := AppendBounded(buffer, length, stored, limit);
      failures := failures + stored.Reach();
      assert Shows(before, shown);
      ShowsRemembered(before, shown, stored, attemptHistoryLimit, buffer[..length]);
    }

    /** `cloneAttemptRecords`: copy the slice, then clone every element in place. */
    method Clones() returns (out: array<Attempt>)
      requires Valid()
      ensures fresh(out) && fresh(Failures(out[..]))
      ensures Shows(out[..], values)
    {
      out := new Attempt[length];
      for i := 0 to length
        invariant out.Length == length
        invariant fresh(Failures(out[..i]))
        invariant Shows(out[..i], values[..i])
      {
        assert Show(buffer[..length], i) == values[i];
        ghost var done := out[..i];
        var clone := CloneAttempt(buffer[i]);
        assert Shows(done, values[..i]);
        out[i] := clone;
        assert out[..i + 1] == done + [clone];
        ShowsAppended(done, values[..i], clone);
        assert values[..i + 1] == values[..i] + [values[i]];
      }
      assert out[..length] == out[..] && values[..length] == values;
    }
  }

  lemma ShowsAppended(structs: seq<Attempt>, values: seq<AttemptRecord>, a: Attempt)
    requires Shows(structs, values)
    ensures Shows(structs + [a], values + [a.View()])
    ensures Failures(structs + [a]) == Failures(structs) + (if a.failure == null then {} else {a.failure})
  {
    forall i | 0 <= i < |structs| + 1 ensures Show(structs + [a], i) == (values + [a.View()])[i] {
      if i < |structs| {
        assert Show(structs, i) == values[i];
      }
    }
  }
}
