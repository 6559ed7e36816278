/** The event-sourced aggregate with its fields updated step by step, and the documented
    repository read that loads a stream page by page while other writers keep appending. */
module EventSourcedAggregates {
  import opened Common
  import opened EventSourcing
  import opened EventSourcingVerdicts
  import opened EventStreams

  class EventSourcedAggregate<!S(!new), !P(!new), !N(!new)> {
    const behaviour: Behaviour<S, P, N>
    var state: S
    var version: nat
    var persistedVersion: Option<nat>
    var pendingEvents: seq<StreamEvent<P>>

    function AsValue(): Aggregate<S, P>
      reads this
    {
      Aggregate(state, version, persistedVersion, pendingEvents)
    }

    constructor (behaviour: Behaviour<S, P, N>, initial: S)
      ensures this.behaviour == behaviour && AsValue() == Aggregate(initial, 0, None, [])
    {
      this.behaviour := behaviour;
      this.state := initial;
      this.version := 0;
      this.persistedVersion := None;
      this.pendingEvents := [];
    }

    method Apply(e: StreamEvent<P>) returns (failure: Option<Failure>)
      modifies this
      ensures var r := EventSourcing.Apply(behaviour, old(AsValue()), e);
              if r.Ok? then failure.None? && AsValue() == r.value
              else failure == Some(r.error) && AsValue() == old(AsValue())
      ensures failure.None? ==>
                && behaviour.validateEvent(old(state), AddressedTo(behaviour, e)).None?
                && version == old(version) + 1 && persistedVersion == old(persistedVersion)
                && pendingEvents == old(pendingEvents) + [AddressedTo(behaviour, e)]
                && e.eventType in behaviour.handlers
                && behaviour.handlers[e.eventType](old(state), AddressedTo(behaviour, e)) == Ok(state)
      ensures e.minted && IsOurs(behaviour, e)
              && behaviour.validateEvent(old(state), AddressedTo(behaviour, e)).Some? ==>
                failure == behaviour.validateEvent(old(state), AddressedTo(behaviour, e))
    {
      ApplyRecordsIff(behaviour, AsValue(), e);
      ApplyRefuses(behaviour, AsValue(), e);
      if !e.minted {
        return Some(UnmintedEvent);
      }
      if NamesAnother(behaviour, e) {
        return Some(MisaddressedEvent);
      }
      var stamped := Stamped(behaviour, e);
      failure := behaviour.validateEvent(state, stamped);
      if failure.Some? {
        return;
      }
      failure := Dispatch(stamped);
      if failure.Some? {
        return;
      }
      pendingEvents := pendingEvents + [stamped];
      version := version + 1;
    }

    /** Runs the handler and commits the next state, or leaves everything as it was. */
    method Dispatch(e: StreamEvent<P>) returns (failure: Option<Failure>)
      modifies this`state
      ensures var r := EventSourcing.Dispatch(behaviour, old(state), e);
              if r.Ok? then failure.None? && state == r.value else failure == Some(r.error) && state == old(state)
    {
      if e.eventType !in behaviour.handlers {
        return Some(MissingHandler);
      }
      var next := behaviour.handlers[e.eventType](state, e);
      if next.Err? {
        return Some(next.error);
      }
      state := next.value;
      return None;
    }

    /** The replay loop both loads share; on a failure the state is the one reached so far. */
    method ReplayEach(history: seq<StreamEvent<P>>) returns (failure: Option<Failure>)
      modifies this`state
      ensures var r := Fold(behaviour, old(state), history);
              if r.Ok? then failure.None? && state == r.value else failure == Some(r.error)
    {
      ghost var start := state;
      for i := 0 to |history|
        invariant Fold(behaviour, start, history[..i]) == Ok(state)
      {
        assert history[..i + 1][..i] == history[..i];
        failure := if NamesAnother(behaviour, history[i]) then Some(ForeignEvent) else None;
        if failure.None? {
          failure := Dispatch(history[i]);
        }
        if failure.Some? {
          FoldStops(behaviour, start, history, i + 1);
          return;
        }
      }
      assert history[..|history|] == history;
      return None;
    }

    method LoadFromHistory(history: seq<StreamEvent<P>>) returns (outcome: Loaded)
      modifies this
      ensures EventSourcing.LoadFromHistory(behaviour, old(AsValue()), history) == LoadResult(AsValue(), outcome)
    {
      if |pendingEvents| > 0 || (version > 0 && persistedVersion.None?) {
        return Thrown(Unreplayable);
      }
      if |history| == 0 {
        return Done;
      }
      var previousState := state;
      var startVersion := version;
      var failure := ReplayEach(history);
      if failure.Some? {
        state := previousState;
        return if failure.value.Domain? then Returned(failure.value) else Thrown(failure.value);
      }
      MarkRestored(startVersion + |history|);
      return Done;
    }

    method RestoreFromSnapshotWithEvents(snapshot: AggregateSnapshot<N>, tail: seq<StreamEvent<P>>)
      returns (outcome: Loaded)
      modifies this
      ensures RestoreFromSnapshot(behaviour, old(AsValue()), snapshot, tail) == LoadResult(AsValue(), outcome)
    {
      if |pendingEvents| > 0 {
        return Thrown(Unreplayable);
      }
      var previousState, previousVersion := state, version;
      var restored := RestoreState(behaviour, snapshot);
      if restored.Err? {
        return if restored.error.Domain? || restored.error.SnapshotCorrupted? then Returned(restored.error)
               else Thrown(restored.error);
      }
      state := restored.value;
      version := snapshot.version;
      var failure := ReplayEach(tail);
      if failure.Some? {
        state := previousState;
        version := previousVersion;
        return if failure.value.Domain? then Returned(failure.value) else Thrown(failure.value);
      }
      MarkRestored(snapshot.version + |tail|);
      return Done;
    }

    method MarkRestored(v: nat)
      modifies this`version, this`persistedVersion
      ensures version == v && persistedVersion == Some(v)
    {
      version := v;
      persistedVersion := Some(v);
    }
  }

  lemma {:induction false} FoldStops<S, P, N>(b: Behaviour<S, P, N>, s: S, history: seq<StreamEvent<P>>, n: nat)
    requires n <= |history| && Fold(b, s, history[..n]).Err?
    ensures Fold(b, s, history) == Fold(b, s, history[..n])
    decreases |history|
  {
    if n == |history| {
      assert history[..n] == history;
    } else {
      assert history[..|history| - 1][..n] == history[..n];
      FoldStops(b, s, history[..|history| - 1], n);
    }
  }

  // ---- reading a stream in pages ----

  datatype Found<+A> = Missing | Found(aggregate: A) | Corrupt(outcome: Loaded) | NotProgressing

  /** What one page of the pinned window is: the next stretch of the stream as it was at pin time. */
  ghost predicate NextStretch<E>(pinned: seq<E>, cursor: nat, page: Page<E>)
    requires cursor <= |pinned|
  {
    var next := cursor + |page.events|;
    && page.exists_ && next <= |pinned|
    && pinned[..cursor] + page.events == pinned[..next]
    && (cursor < |pinned| ==> |page.events| > 0)
  }

  /** Reading on with the first head pinned; the first read needs no pin, its own head is the pin. */
  lemma PageIsNextStretch<E(!new)>(first: Streams<E>, now: Streams<E>, stream: Address, cursor: nat,
                                   target: Option<nat>, limit: nat)
    requires Extended(first, now) && first.Has(stream) && cursor <= |first.entries[stream]| && 0 < limit
    requires target == Some(|first.entries[stream]|) || (target.None? && now == first)
    ensures NextStretch(first.entries[stream], cursor, ReadStream(now, stream, cursor, target, limit))
    ensures target.None? ==> ReadStream(now, stream, cursor, target, limit).lastVersion == |first.entries[stream]|
  {
    assert first.entries[stream] <= now.entries[stream];
  }

  /** Loading the next stretch brings the aggregate to where loading the longer prefix would. */
  lemma StretchLoads<S, P, N>(b: Behaviour<S, P, N>, start: Aggregate<S, P>, pinned: seq<StreamEvent<P>>, cursor: nat,
                              page: Page<StreamEvent<P>>, before: Aggregate<S, P>)
    requires cursor <= |pinned| && NextStretch(pinned, cursor, page)
    requires LoadFromHistory(b, start, pinned[..cursor]) == LoadResult(before, Done)
    ensures var r, next := LoadFromHistory(b, before, page.events), cursor + |page.events|;
            && (r.outcome.Done? ==> LoadFromHistory(b, start, pinned[..next]) == r)
            && (!r.outcome.Done? ==> !LoadFromHistory(b, start, pinned).outcome.Done?)
  {
    var next := cursor + |page.events|;
    LoadConcat(b, start, pinned[..cursor], page.events);
    LoadConcat(b, start, pinned[..next], pinned[next..]);
    assert pinned == pinned[..next] + pinned[next..];
  }

  lemma NothingLoaded<S, P, N>(b: Behaviour<S, P, N>, initial: S, pinned: seq<StreamEvent<P>>)
    ensures LoadFromHistory(b, Aggregate(initial, 0, None, []), pinned[..0])
         == LoadResult(Aggregate(initial, 0, None, []), Done)
  {
  }

  /** The documented `findById`: pin the head seen first, load page after page, advance by what
      each page returned. `others` are the appends other writers attempt between two reads. */
  method FindById<S(!new), P(!new), N(!new)>(
    store: InMemoryEventStore<StreamEvent<P>>, behaviour: Behaviour<S, P, N>, initial: S, stream: Address, limit: nat,
    others: nat -> seq<AppendRequest<StreamEvent<P>>>)
    returns (found: Found<EventSourcedAggregate<S, P, N>>)
    requires store.Valid() && 0 < limit
    modifies store
    ensures store.Valid() && Extended(old(store.streams), store.streams)
    ensures found.Missing? <==> !old(store.streams).Has(stream)
    ensures !found.NotProgressing?
    ensures old(store.streams).Has(stream) ==>
              var full := LoadFromHistory(behaviour, Aggregate(initial, 0, None, []),
                                          old(store.streams).entries[stream]);
              && (found.Found? <==> full.outcome.Done?)
              && (found.Found? ==> fresh(found.aggregate) && found.aggregate.AsValue() == full.aggregate)
  {
    hide EventSourcing.LoadFromHistory, Extended, Consistent, ReadStream;
    var aggregate := new EventSourcedAggregate(behaviour, initial);
    ghost var first := store.streams;
    ghost var pinned := EventsOf(first, stream);
    ghost var start := Aggregate(initial, 0, None, []);
    ExtendedReflexive(first);
    NothingLoaded(behaviour, initial, pinned);
    var cursor: nat := 0;
    var target: Option<nat> := None;
    var round: nat := 0;
    while true
      invariant store.Valid() && Extended(first, store.streams)
      invariant if target.None? then cursor == 0 && store.streams == first
                else target == Some(|pinned|) && first.Has(stream)
      invariant cursor <= |pinned|
      invariant fresh(aggregate) && aggregate.behaviour == behaviour
      invariant EventSourcing.LoadFromHistory(behaviour, start, pinned[..cursor])
                == LoadResult(aggregate.AsValue(), Done)
      decreases |pinned| - cursor
    {
      var page := store.ReadPage(stream, cursor, target, limit);
      if first.Has(stream) {
        PageIsNextStretch(first, store.streams, stream, cursor, target, limit);
      } else {
        MissingPage(store.streams, stream, cursor, target, limit);
      }
      if !page.value.exists_ {
        return Missing;
      }
      if target.None? {
        target := Some(page.value.lastVersion);
      }
      if cursor == target.value {
        assert pinned[..cursor] == pinned;
        return Found(aggregate);
      }
      if |page.value.events| == 0 {
        return NotProgressing;
      }
      StretchLoads(behaviour, start, pinned, cursor, page.value, aggregate.AsValue());
      var outcome := aggregate.LoadFromHistory(page.value.events);
      if !outcome.Done? {
        return Corrupt(outcome);
      }
      cursor := cursor + |page.value.events|;
      ghost var before := store.streams;
      OtherWriters(store, others(round));
      ExtendedTransitive(first, before, store.streams);
      round := round + 1;
    }
  }

  lemma MissingPage<E(!new)>(s: Streams<E>, stream: Address, cursor: nat, target: Option<nat>, limit: nat)
    requires !s.Has(stream)
    ensures !ReadStream(s, stream, cursor, target, limit).exists_
  {
  }

  /** Appends by other writers; each succeeds or is refused. */
  method OtherWriters<E(!new)>(store: InMemoryEventStore<E>, requests: seq<AppendRequest<E>>)
    requires store.Valid()
    modifies store
    ensures store.Valid() && Extended(old(store.streams), store.streams)
  {
    ExtendedReflexive(store.streams);
    for i := 0 to |requests|
      invariant store.Valid() && Extended(old(store.streams), store.streams)
    {
      ghost var before := store.streams;
      var error := store.AppendEvents(requests[i]);
      ExtendedTransitive(old(store.streams), before, store.streams);
    }
  }
}
