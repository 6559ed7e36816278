/** When recording, replaying and restoring succeed, in the callbacks of the aggregate alone: a
    history replays exactly when a chain of states runs through its handlers. */
module EventSourcingVerdicts {
  import opened Common
  import opened EventSourcing

  /** The event carries no address, or this aggregate's. */
  predicate IsOurs<S, P, N>(b: Behaviour<S, P, N>, e: StreamEvent<P>) {
    && e.aggregateId in {None, Some(b.id)}
    && e.aggregateType in {None, Some(b.aggregateType)}
  }

  /** The event as recorded: addressed to this aggregate, otherwise as given. */
  function AddressedTo<S, P, N>(b: Behaviour<S, P, N>, e: StreamEvent<P>): StreamEvent<P> {
    StreamEvent(e.eventType, Some(b.id), Some(b.aggregateType), e.minted, e.payload)
  }

  // ---- recording ----

  lemma StampedIsAddressed<S, P, N>(b: Behaviour<S, P, N>, e: StreamEvent<P>)
    requires IsOurs(b, e)
    ensures !NamesAnother(b, e) && Stamped(b, e) == AddressedTo(b, e)
  {
  }

  /** An event today's rules reject is refused with that rejection; so is one of another aggregate,
      one that was not minted, and one without a handler. */
  lemma ApplyRefuses<S, P, N>(b: Behaviour<S, P, N>, a: Aggregate<S, P>, e: StreamEvent<P>)
    ensures !e.minted ==> Apply(b, a, e) == Err(UnmintedEvent)
    ensures e.minted && !IsOurs(b, e) ==> Apply(b, a, e) == Err(MisaddressedEvent)
    ensures e.minted && IsOurs(b, e) ==>
              var rejected := b.validateEvent(a.state, AddressedTo(b, e));
              && (rejected.Some? ==> Apply(b, a, e) == Err(rejected.value))
              && (rejected.None? && e.eventType !in b.handlers ==> Apply(b, a, e) == Err(MissingHandler))
  {
    if IsOurs(b, e) {
      StampedIsAddressed(b, e);
    }
  }

  /** An event is recorded exactly when it is minted, ours, allowed by today's rules and handled; then
      its handler gives the state, and it joins the pending events with this aggregate's address. */
  lemma ApplyRecordsIff<S, P, N>(b: Behaviour<S, P, N>, a: Aggregate<S, P>, e: StreamEvent<P>)
    ensures Apply(b, a, e).Ok? <==>
            && e.minted && IsOurs(b, e) && b.validateEvent(a.state, AddressedTo(b, e)).None?
            && e.eventType in b.handlers && b.handlers[e.eventType](a.state, AddressedTo(b, e)).Ok?
    ensures Apply(b, a, e).Ok? ==>
              Apply(b, a, e).value
              == Aggregate(b.handlers[e.eventType](a.state, AddressedTo(b, e)).value, a.version + 1,
                           a.persistedVersion, a.pendingEvents + [AddressedTo(b, e)])
  {
    if IsOurs(b, e) {
      StampedIsAddressed(b, e);
    }
  }

  // ---- replaying ----

  /** The handlers lead from each state to the next, every event being ours; today's rules play no part. */
  ghost predicate Replays<S, P, N>(b: Behaviour<S, P, N>, states: seq<S>, history: seq<StreamEvent<P>>) {
    && |states| == |history| + 1
    && forall i :: 0 <= i < |history| ==>
         && IsOurs(b, history[i]) && history[i].eventType in b.handlers
         && b.handlers[history[i].eventType](states[i], history[i]) == Ok(states[i + 1])
  }

  lemma ReplayVerdict<S, P, N>(b: Behaviour<S, P, N>, s: S, e: StreamEvent<P>)
    ensures Replay(b, s, e)
         == if !IsOurs(b, e) then Err(ForeignEvent)
            else if e.eventType !in b.handlers then Err(MissingHandler)
            else b.handlers[e.eventType](s, e)
  {
  }

  /** The states a history that folds runs through. */
  lemma {:induction false} FoldRuns<S, P, N>(b: Behaviour<S, P, N>, s: S, history: seq<StreamEvent<P>>)
    returns (states: seq<S>)
    requires Fold(b, s, history).Ok?
    ensures Replays(b, states, history) && states[0] == s && states[|history|] == Fold(b, s, history).value
  {
    if |history| == 0 {
      states := [s];
    } else {
      var init, last := history[..|history| - 1], history[|history| - 1];
      var before := FoldRuns(b, s, init);
      ReplayVerdict(b, before[|init|], last);
      states := before + [Fold(b, s, history).value];
      hide Fold, IsOurs;
      forall i | 0 <= i < |history|
        ensures IsOurs(b, history[i]) && history[i].eventType in b.handlers
        ensures b.handlers[history[i].eventType](states[i], history[i]) == Ok(states[i + 1]) {
        if i < |init| {
          assert init[i] == history[i] && states[i] == before[i] && states[i + 1] == before[i + 1];
        }
      }
    }
  }

  lemma {:induction false} RunsFold<S, P, N>(b: Behaviour<S, P, N>, states: seq<S>, history: seq<StreamEvent<P>>)
    requires Replays(b, states, history)
    ensures Fold(b, states[0], history) == Ok(states[|history|])
  {
    if |history| > 0 {
      var init, before := history[..|history| - 1], states[..|history|];
      assert forall i :: 0 <= i < |init| ==> init[i] == history[i];
      RunsFold(b, before, init);
      ReplayVerdict(b, before[|init|], history[|init|]);
    }
  }

  /** A load succeeds exactly onto an aggregate that is fresh or persisted and has nothing pending, and
      exactly when the history replays from its state; then it stands at the end of the history, clean. */
  lemma LoadsIff<S(!new), P, N>(b: Behaviour<S, P, N>, a: Aggregate<S, P>, history: seq<StreamEvent<P>>)
    ensures LoadFromHistory(b, a, history).outcome.Done? <==>
            && a.pendingEvents == [] && (a.version == 0 || a.persistedVersion.Some?)
            && exists states: seq<S> :: Replays(b, states, history) && states[0] == a.state
    ensures forall states: seq<S> ::
              LoadFromHistory(b, a, history).outcome.Done? && Replays(b, states, history) && states[0] == a.state
              && |history| > 0 ==>
                LoadFromHistory(b, a, history).aggregate
                == Aggregate(states[|history|], a.version + |history|, Some(a.version + |history|), [])
    ensures LoadFromHistory(b, a, []).aggregate == a
  {
    if Fold(b, a.state, history).Ok? {
      var states := FoldRuns(b, a.state, history);
    }
    forall states: seq<S> | Replays(b, states, history) && states[0] == a.state
      ensures Fold(b, a.state, history) == Ok(states[|history|]) {
      RunsFold(b, states, history);
    }
    hide Replays;
  }

  /** The event after a stretch that replays fails: of another aggregate, without a handler, or refused
      by its handler. */
  ghost predicate FailsAt<S, P, N>(b: Behaviour<S, P, N>, states: seq<S>, history: seq<StreamEvent<P>>, n: nat,
                                   failure: Failure) {
    && n < |history| && Replays(b, states, history[..n])
    && if !IsOurs(b, history[n]) then failure == ForeignEvent
       else if history[n].eventType !in b.handlers then failure == MissingHandler
       else b.handlers[history[n].eventType](states[n], history[n]) == Err(failure)
  }

  lemma {:induction false} ErrorStays<S, P, N>(b: Behaviour<S, P, N>, s: S, history: seq<StreamEvent<P>>, n: nat)
    requires n <= |history| && Fold(b, s, history[..n]).Err?
    ensures Fold(b, s, history) == Fold(b, s, history[..n])
    decreases |history|
  {
    if n == |history| {
      assert history[..n] == history;
    } else {
      assert history[..|history| - 1][..n] == history[..n];
      ErrorStays(b, s, history[..|history| - 1], n);
    }
  }

  lemma FirstFailureFolds<S, P, N>(b: Behaviour<S, P, N>, states: seq<S>, history: seq<StreamEvent<P>>, n: nat,
                                   failure: Failure)
    requires FailsAt(b, states, history, n, failure)
    ensures Fold(b, states[0], history) == Err(failure)
  {
    RunsFold(b, states, history[..n]);
    ReplayVerdict(b, states[n], history[n]);
    assert history[..n + 1][..n] == history[..n];
    ErrorStays(b, states[0], history, n + 1);
  }

  /** The first event that fails decides the outcome: a domain failure is returned, anything else is
      thrown, and the aggregate is as before. */
  lemma FirstFailureDecides<S, P, N>(b: Behaviour<S, P, N>, a: Aggregate<S, P>, history: seq<StreamEvent<P>>,
                                     states: seq<S>, n: nat, failure: Failure)
    requires a.pendingEvents == [] && (a.version == 0 || a.persistedVersion.Some?)
    requires FailsAt(b, states, history, n, failure) && states[0] == a.state
    ensures LoadFromHistory(b, a, history)
         == LoadResult(a, if failure.Domain? then Returned(failure) else Thrown(failure))
  {
    FirstFailureFolds(b, states, history, n, failure);
  }

  // ---- restoring ----

  /** The stored state, brought to today's schema if it has another, opens as this state and passes
      the structural check. */
  ghost predicate Opens<S, P, N(!new)>(b: Behaviour<S, P, N>, snapshot: AggregateSnapshot<N>, s: S) {
    exists stored: N ::
      && (if snapshot.schemaVersion == Some(b.snapshotSchemaVersion)
             || (snapshot.schemaVersion.None? && b.snapshotSchemaVersion == 1) then stored == snapshot.state
          else b.migrateSnapshotState(snapshot.state, if snapshot.schemaVersion.Some? then snapshot.schemaVersion.value
                                                      else 1) == Ok(stored))
      && b.fromSnapshotState(stored) == Ok(s) && b.validateRestoredState(s).None?
  }

  lemma OpensIff<S, P, N(!new)>(b: Behaviour<S, P, N>, snapshot: AggregateSnapshot<N>, s: S)
    ensures RestoreState(b, snapshot) == Ok(s) <==> Opens(b, snapshot, s)
  {
    var resolved := ResolveSnapshot(b, snapshot);
    if resolved.Ok? {
      var stored := resolved.value;
    }
  }

  /** A restore succeeds exactly onto an aggregate with nothing pending, when the snapshot opens and the
      tail replays from the state it holds; then it stands at the end of the tail, clean. */
  lemma RestoresIff<S(!new), P, N(!new)>(b: Behaviour<S, P, N>, a: Aggregate<S, P>, snapshot: AggregateSnapshot<N>,
                                         tail: seq<StreamEvent<P>>)
    ensures RestoreFromSnapshot(b, a, snapshot, tail).outcome.Done? <==>
            && a.pendingEvents == []
            && exists states: seq<S> :: Replays(b, states, tail) && Opens(b, snapshot, states[0])
    ensures forall states: seq<S> ::
              RestoreFromSnapshot(b, a, snapshot, tail).outcome.Done? && Replays(b, states, tail)
              && Opens(b, snapshot, states[0]) ==>
                RestoreFromSnapshot(b, a, snapshot, tail).aggregate
                == Aggregate(states[|tail|], snapshot.version + |tail|, Some(snapshot.version + |tail|), [])
  {
    var restored := RestoreState(b, snapshot);
    if restored.Ok? {
      OpensIff(b, snapshot, restored.value);
      if Fold(b, restored.value, tail).Ok? {
        var states := FoldRuns(b, restored.value, tail);
      }
    }
    forall states: seq<S> | Replays(b, states, tail) && Opens(b, snapshot, states[0])
      ensures restored == Ok(states[0]) && Fold(b, states[0], tail) == Ok(states[|tail|]) {
      RunsFold(b, states, tail);
      OpensIff(b, snapshot, states[0]);
    }
    hide Replays, Opens, RestoreState;
  }
}
