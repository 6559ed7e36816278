/** Event-sourced aggregates as values: recording new facts, replaying history, and restoring
    a snapshot plus its tail. */
module EventSourcing {
  import opened Common

  datatype StreamEvent<+P> = StreamEvent(
    eventType: string,
    aggregateId: Option<string>,
    aggregateType: Option<string>,
    minted: bool,
    payload: P)

  /** Everything that can be thrown; only a domain failure is an expected rejection. */
  datatype Failure =
    | Domain(error: string)
    | SnapshotCorrupted
    | SchemaMismatch
    | MissingHandler
    | ForeignEvent
    | MisaddressedEvent
    | UnmintedEvent
    | Unreplayable
    | Unexpected(error: string)

  /** What a subclass supplies. */
  datatype Behaviour<!S, !P, !N> = Behaviour(
    id: string,
    aggregateType: string,
    handlers: map<string, (S, StreamEvent<P>) -> Result<S, Failure>>,
    validateEvent: (S, StreamEvent<P>) -> Option<Failure>,
    toSnapshotState: S -> Result<N, Failure>,
    fromSnapshotState: N -> Result<S, Failure>,
    migrateSnapshotState: (N, int) -> Result<N, Failure>,
    validateRestoredState: S -> Option<Failure>,
    snapshotSchemaVersion: int)

  datatype Aggregate<S, P> = Aggregate(
    state: S,
    version: nat,
    persistedVersion: Option<nat>,
    pendingEvents: seq<StreamEvent<P>>)

  datatype AggregateSnapshot<N> = AggregateSnapshot(state: N, version: nat, schemaVersion: Option<int>)

  /** A load succeeds, returns an error, or throws. */
  datatype Loaded = Done | Returned(failure: Failure) | Thrown(failure: Failure)

  datatype LoadResult<S, P> = LoadResult(aggregate: Aggregate<S, P>, outcome: Loaded)

  // ---- one event ----

  function Dispatch<S, P, N>(b: Behaviour<S, P, N>, s: S, e: StreamEvent<P>): Result<S, Failure> {
    if e.eventType in b.handlers then b.handlers[e.eventType](s, e) else Err(MissingHandler)
  }

  predicate NamesAnother<S, P, N>(b: Behaviour<S, P, N>, e: StreamEvent<P>) {
    || (e.aggregateId.Some? && e.aggregateId.value != b.id)
    || (e.aggregateType.Some? && e.aggregateType.value != b.aggregateType)
  }

  function Stamped<S, P, N>(b: Behaviour<S, P, N>, e: StreamEvent<P>): StreamEvent<P> {
    if e.aggregateId.Some? && e.aggregateType.Some? then e
    else e.(aggregateId := Some(b.id), aggregateType := Some(b.aggregateType))
  }

  /** Recording a new fact: address, today's rules, state, pending event, version. */
  function Apply<S, P, N>(b: Behaviour<S, P, N>, a: Aggregate<S, P>, e: StreamEvent<P>)
    : Result<Aggregate<S, P>, Failure>
  {
    if !e.minted then Err(UnmintedEvent)
    else if NamesAnother(b, e) then Err(MisaddressedEvent)
    else
      var stamped := Stamped(b, e);
      var invalid := b.validateEvent(a.state, stamped);
      if invalid.Some? then Err(invalid.value) else
      var next := Dispatch(b, a.state, stamped);
      if next.Err? then Err(next.error)
      else Ok(a.(state := next.value, pendingEvents := a.pendingEvents + [stamped], version := a.version + 1))
  }

  /** Replaying a persisted fact: no rule is checked again. */
  function Replay<S, P, N>(b: Behaviour<S, P, N>, s: S, e: StreamEvent<P>): Result<S, Failure> {
    if NamesAnother(b, e) then Err(ForeignEvent) else Dispatch(b, s, e)
  }

  /** The state after a history, or the failure of its first event that fails. */
  function Fold<S, P, N>(b: Behaviour<S, P, N>, s: S, history: seq<StreamEvent<P>>): Result<S, Failure> {
    if |history| == 0 then Ok(s) else
    var before := Fold(b, s, history[..|history| - 1]);
    if before.Err? then before else Replay(b, before.value, history[|history| - 1])
  }

  // ---- loading ----

  function Restored<S, P>(a: Aggregate<S, P>, state: S, version: nat): Aggregate<S, P> {
    a.(state := state, version := version, persistedVersion := Some(version))
  }

  function LoadFromHistory<S, P, N>(b: Behaviour<S, P, N>, a: Aggregate<S, P>, history: seq<StreamEvent<P>>)
    : LoadResult<S, P>
  {
    if |a.pendingEvents| > 0 || (a.version > 0 && a.persistedVersion.None?) then LoadResult(a, Thrown(Unreplayable))
    else if |history| == 0 then LoadResult(a, Done)
    else
      var folded := Fold(b, a.state, history);
      if folded.Ok? then LoadResult(Restored(a, folded.value, a.version + |history|), Done)
      else if folded.error.Domain? then LoadResult(a, Returned(folded.error))
      else LoadResult(a, Thrown(folded.error))
  }

  function ResolveSnapshot<S, P, N>(b: Behaviour<S, P, N>, snapshot: AggregateSnapshot<N>): Result<N, Failure> {
    var stored := if snapshot.schemaVersion.Some? then snapshot.schemaVersion.value else 1;
    if stored == b.snapshotSchemaVersion then Ok(snapshot.state) else b.migrateSnapshotState(snapshot.state, stored)
  }

  function RestoreState<S, P, N>(b: Behaviour<S, P, N>, snapshot: AggregateSnapshot<N>): Result<S, Failure> {
    var resolved := ResolveSnapshot(b, snapshot);
    if resolved.Err? then Err(resolved.error) else
    var state := b.fromSnapshotState(resolved.value);
    if state.Err? then state
    else if b.validateRestoredState(state.value).Some? then Err(b.validateRestoredState(state.value).value)
    else state
  }

  function RestoreFromSnapshot<S, P, N>(b: Behaviour<S, P, N>, a: Aggregate<S, P>, snapshot: AggregateSnapshot<N>,
                                        tail: seq<StreamEvent<P>>): LoadResult<S, P> {
    if |a.pendingEvents| > 0 then LoadResult(a, Thrown(Unreplayable)) else
    var restored := RestoreState(b, snapshot);
    if restored.Err? then
      LoadResult(a, if restored.error.Domain? || restored.error.SnapshotCorrupted? then Returned(restored.error)
                    else Thrown(restored.error))
    else
      var folded := Fold(b, restored.value, tail);
      if folded.Ok? then LoadResult(Restored(a, folded.value, snapshot.version + |tail|), Done)
      else if folded.error.Domain? then LoadResult(a, Returned(folded.error))
      else LoadResult(a, Thrown(folded.error))
  }

  function CreateSnapshot<S, P, N>(b: Behaviour<S, P, N>, a: Aggregate<S, P>): Result<AggregateSnapshot<N>, Failure> {
    var stored := b.toSnapshotState(a.state);
    if stored.Err? then Err(stored.error)
    else Ok(AggregateSnapshot(stored.value, a.version, Some(b.snapshotSchemaVersion)))
  }

  // ---- folds compose ----

  lemma {:induction false} FoldConcat<S, P, N>(b: Behaviour<S, P, N>, s: S, x: seq<StreamEvent<P>>,
                                               y: seq<StreamEvent<P>>)
    ensures Fold(b, s, x + y) == if Fold(b, s, x).Ok? then Fold(b, Fold(b, s, x).value, y) else Fold(b, s, x)
  {
    if |y| == 0 {
      assert x + y == x;
    } else {
      var n := |y| - 1;
      assert (x + y)[..|x + y| - 1] == x + y[..n];
      FoldConcat(b, s, x, y[..n]);
    }
  }

  /** A load that does not succeed leaves the aggregate as it was. */
  lemma FailedLoadChangesNothing<S, P, N>(b: Behaviour<S, P, N>, a: Aggregate<S, P>, history: seq<StreamEvent<P>>,
                                          snapshot: AggregateSnapshot<N>)
    ensures !LoadFromHistory(b, a, history).outcome.Done? ==> LoadFromHistory(b, a, history).aggregate == a
    ensures !RestoreFromSnapshot(b, a, snapshot, history).outcome.Done? ==>
              RestoreFromSnapshot(b, a, snapshot, history).aggregate == a
  {
  }

  // ---- paged replay ----

  function Flatten<P>(pages: seq<seq<StreamEvent<P>>>): seq<StreamEvent<P>> {
    if |pages| == 0 then [] else Flatten(pages[..|pages| - 1]) + pages[|pages| - 1]
  }

  /** Loading page after page, stopping at the first that fails. */
  function LoadPages<S, P, N>(b: Behaviour<S, P, N>, a: Aggregate<S, P>, pages: seq<seq<StreamEvent<P>>>)
    : LoadResult<S, P>
  {
    if |pages| == 0 then LoadFromHistory(b, a, []) else
    var before := LoadPages(b, a, pages[..|pages| - 1]);
    if before.outcome.Done? then LoadFromHistory(b, before.aggregate, pages[|pages| - 1]) else before
  }

  lemma LoadConcat<S, P, N>(b: Behaviour<S, P, N>, a: Aggregate<S, P>, x: seq<StreamEvent<P>>, y: seq<StreamEvent<P>>)
    ensures LoadFromHistory(b, a, x + y).outcome.Done? <==>
            LoadFromHistory(b, a, x).outcome.Done?
            && LoadFromHistory(b, LoadFromHistory(b, a, x).aggregate, y).outcome.Done?
    ensures LoadFromHistory(b, a, x + y).outcome.Done? ==>
              LoadFromHistory(b, a, x + y) == LoadFromHistory(b, LoadFromHistory(b, a, x).aggregate, y)
  {
    FoldConcat(b, a.state, x, y);
    if |x| == 0 {
      assert x + y == y;
    } else if |y| == 0 {
      assert x + y == x;
    }
  }

  /** Replaying in pages of any size succeeds exactly when replaying all at once does, and ends
      in the same aggregate. */
  lemma {:induction false} PagedReplayIsReplay<S, P, N>(
    b: Behaviour<S, P, N>, a: Aggregate<S, P>, pages: seq<seq<StreamEvent<P>>>)
    ensures LoadPages(b, a, pages).outcome.Done? <==> LoadFromHistory(b, a, Flatten(pages)).outcome.Done?
    ensures LoadPages(b, a, pages).outcome.Done? ==> LoadPages(b, a, pages) == LoadFromHistory(b, a, Flatten(pages))
  {
    if |pages| > 0 {
      PagedReplayIsReplay(b, a, pages[..|pages| - 1]);
      LoadConcat(b, a, Flatten(pages[..|pages| - 1]), pages[|pages| - 1]);
    }
  }

  // ---- live aggregates ----

  function ApplyAll<S, P, N>(b: Behaviour<S, P, N>, a: Aggregate<S, P>, events: seq<StreamEvent<P>>)
    : Result<Aggregate<S, P>, Failure>
  {
    if |events| == 0 then Ok(a) else
    var before := ApplyAll(b, a, events[..|events| - 1]);
    if before.Err? then before else Apply(b, before.value, events[|events| - 1])
  }

  lemma {:induction false} AppliedFolds<S, P, N>(b: Behaviour<S, P, N>, a: Aggregate<S, P>, events: seq<StreamEvent<P>>)
    requires a.pendingEvents == [] && ApplyAll(b, a, events).Ok?
    ensures var live := ApplyAll(b, a, events).value;
            && Fold(b, a.state, live.pendingEvents) == Ok(live.state)
            && live.version == a.version + |events| && |live.pendingEvents| == |events|
            && live.persistedVersion == a.persistedVersion
  {
    if |events| > 0 {
      AppliedFolds(b, a, events[..|events| - 1]);
      var before := ApplyAll(b, a, events[..|events| - 1]).value;
      var stamped := Stamped(b, events[|events| - 1]);
      assert (before.pendingEvents + [stamped])[..|before.pendingEvents|] == before.pendingEvents;
    }
  }

  /** Replaying what a live aggregate recorded, onto what it started from, ends in its state and
      version, whatever today's rules say of the recorded events. */
  lemma ReplayEqualsLive<S, P, N>(b: Behaviour<S, P, N>, a: Aggregate<S, P>, events: seq<StreamEvent<P>>)
    requires a.pendingEvents == [] && (a.version > 0 ==> a.persistedVersion.Some?)
    requires ApplyAll(b, a, events).Ok?
    ensures var live := ApplyAll(b, a, events).value;
            var loaded := LoadFromHistory(b, a, live.pendingEvents);
            && loaded.outcome.Done?
            && loaded.aggregate.state == live.state && loaded.aggregate.version == live.version
            && loaded.aggregate.pendingEvents == []
            && (|events| > 0 ==> loaded.aggregate.persistedVersion == Some(live.version))
  {
    AppliedFolds(b, a, events);
  }

  // ---- snapshots ----

  /** The state survives the trip through its stored form and its structural check. */
  ghost predicate Faithful<S, P, N>(b: Behaviour<S, P, N>, s: S) {
    var stored := b.toSnapshotState(s);
    stored.Ok? && b.fromSnapshotState(stored.value) == Ok(s) && b.validateRestoredState(s).None?
  }

  /** A snapshot taken after any prefix, restored into any aggregate without pending events and
      followed by the rest, succeeds exactly when the full replay does, and ends in the same
      state and version. */
  lemma SnapshotPlusTailIsReplay<S, P, N>(b: Behaviour<S, P, N>, initial: S, history: seq<StreamEvent<P>>, n: nat,
                                          target: Aggregate<S, P>)
    requires n <= |history| && |history| > 0 && target.pendingEvents == []
    requires LoadFromHistory(b, Aggregate(initial, 0, None, []), history[..n]).outcome.Done?
    requires Faithful(b, LoadFromHistory(b, Aggregate(initial, 0, None, []), history[..n]).aggregate.state)
    ensures var fresh_ := Aggregate(initial, 0, None, []);
            var snapshot := CreateSnapshot(b, LoadFromHistory(b, fresh_, history[..n]).aggregate);
            && snapshot.Ok?
            && var full := LoadFromHistory(b, fresh_, history);
               var quick := RestoreFromSnapshot(b, target, snapshot.value, history[n..]);
               && (full.outcome.Done? <==> quick.outcome.Done?)
               && (full.outcome.Done? ==> full.aggregate == quick.aggregate)
  {
    assert history == history[..n] + history[n..];
    FoldConcat(b, initial, history[..n], history[n..]);
  }
}
