/** `withCommit`: harvest the enrolled aggregates' events inside the transaction, hand them to
    the outbox, and acknowledge the aggregates only after the transaction committed. */
module WithCommits {
  import opened Common
  import opened Outboxes
  import opened OutboxChain
  import opened OutboxProperties
  import opened InMemoryOutboxes
  import opened CommitScopes

  datatype View = View(version: nat, persistedVersion: Option<nat>, pendingEvents: seq<Event>)

  // ---- the harvest ----

  predicate Addressed(e: Event) {
    && e.aggregateId.Some? && e.aggregateId.value != ""
    && e.aggregateType.Some? && e.aggregateType.value != ""
  }

  function SourceOf(e: Event): Address
    requires Addressed(e)
  {
    Address(e.aggregateType.value, e.aggregateId.value)
  }

  /** Event k of an aggregate, positioned in its commit. */
  function Positioned(v: View, k: nat): Candidate
    requires k < |v.pendingEvents| && Addressed(v.pendingEvents[k])
  {
    Candidate(v.pendingEvents[k], SourceOf(v.pendingEvents[k]), CandidatePosition(v.version, k, |v.pendingEvents|))
  }

  function HarvestEvents(v: View, n: nat): Result<seq<Candidate>, CommitError>
    requires n <= |v.pendingEvents|
  {
    if n == 0 then Ok([]) else
    var before := HarvestEvents(v, n - 1);
    if before.Err? then before
    else if !Addressed(v.pendingEvents[n - 1]) then Err(MissingAddress)
    else Ok(before.value + [Positioned(v, n - 1)])
  }

  /** Eventful commits need a cursor of their own. */
  predicate Advanced(v: View) {
    |v.pendingEvents| > 0 && v.persistedVersion.Some? ==> v.version > v.persistedVersion.value
  }

  function HarvestOne(v: View): Result<seq<Candidate>, CommitError> {
    if !Advanced(v) then Err(NoVersionAdvance) else HarvestEvents(v, |v.pendingEvents|)
  }

  /** All enrolled aggregates in token order. */
  function Harvest(vs: seq<View>): Result<seq<Candidate>, CommitError> {
    if |vs| == 0 then Ok([]) else
    var before := Harvest(vs[..|vs| - 1]);
    if before.Err? then before else
    var last := HarvestOne(vs[|vs| - 1]);
    if last.Err? then last else Ok(before.value + last.value)
  }

  predicate Harvestable(v: View) {
    Advanced(v) && forall k :: 0 <= k < |v.pendingEvents| ==> Addressed(v.pendingEvents[k])
  }

  /** How many events the first aggregates have. */
  function Offset(vs: seq<View>, i: nat): nat
    requires i <= |vs|
  {
    if i == 0 then 0 else Offset(vs, i - 1) + |vs[i - 1].pendingEvents|
  }

  lemma {:induction false} HarvestEventsExact(v: View, n: nat)
    requires n <= |v.pendingEvents|
    ensures HarvestEvents(v, n).Ok? <==> forall k :: 0 <= k < n ==> Addressed(v.pendingEvents[k])
    ensures HarvestEvents(v, n).Ok? ==> |HarvestEvents(v, n).value| == n
    ensures HarvestEvents(v, n).Ok? ==>
              forall k :: 0 <= k < n ==>
                  Addressed(v.pendingEvents[k]) && HarvestEvents(v, n).value[k] == Positioned(v, k)
  {
    if n > 0 {
      HarvestEventsExact(v, n - 1);
    }
  }

  lemma {:induction false} OffsetPrefix(vs: seq<View>, n: nat, i: nat)
    requires i <= n <= |vs|
    ensures Offset(vs[..n], i) == Offset(vs, i) <= Offset(vs, n)
  {
    if i > 0 {
      OffsetPrefix(vs, n, i - 1);
    }
    OffsetGrows(vs, i, n);
  }

  lemma {:induction false} OffsetGrows(vs: seq<View>, i: nat, n: nat)
    requires i <= n <= |vs|
    ensures Offset(vs, i) <= Offset(vs, n)
    decreases n
  {
    if i < n {
      OffsetGrows(vs, i, n - 1);
    }
  }

  /** Event k of aggregate i is in the harvest at its place. */
  ghost predicate InPlace(vs: seq<View>, cs: seq<Candidate>, i: nat, k: nat)
    requires i < |vs| && k < |vs[i].pendingEvents|
  {
    && Addressed(vs[i].pendingEvents[k])
    && Offset(vs, i) + k < |cs| && cs[Offset(vs, i) + k] == Positioned(vs[i], k)
  }

  /** The harvest succeeds exactly when every eventful aggregate advanced past its persisted
      version and every event is addressed; then it holds every pending event exactly once, in
      token order and recording order, positioned 0..n-1 of n at its aggregate's version. */
  lemma {:induction false} HarvestIsExact(vs: seq<View>)
    ensures Harvest(vs).Ok? <==> forall i :: 0 <= i < |vs| ==> Harvestable(vs[i])
    ensures Harvest(vs).Ok? ==> |Harvest(vs).value| == Offset(vs, |vs|)
    ensures Harvest(vs).Ok? ==>
              forall i: nat, k: nat :: i < |vs| && k < |vs[i].pendingEvents| ==> InPlace(vs, Harvest(vs).value, i, k)
  {
    if |vs| > 0 {
      var n := |vs| - 1;
      HarvestIsExact(vs[..n]);
      HarvestEventsExact(vs[n], |vs[n].pendingEvents|);
      OffsetPrefix(vs, n, n);
      if Harvest(vs).Ok? {
        forall i: nat, k: nat | i < |vs| && k < |vs[i].pendingEvents| ensures InPlace(vs, Harvest(vs).value, i, k) {
          if i < n {
            OffsetPrefix(vs, n, i);
            assert InPlace(vs[..n], Harvest(vs[..n]).value, i, k);
          }
        }
      }
      assert Harvest(vs).Ok? ==> forall i :: 0 <= i < n ==> Harvestable(vs[..n][i]);
    }
  }

  // ---- acknowledgement ----

  /** After the commit: a saved aggregate is clean at its version, a deleted one only forgets its events. */
  function Acknowledged(v: View, d: Disposition): View {
    if d.Deleted? then v.(pendingEvents := []) else View(v.version, Some(v.version), [])
  }

  function ViewOf(a: AggregateRoot): View
    reads a
  {
    View(a.version, a.persistedVersion, a.pendingEvents)
  }

  function Aggregates(records: seq<CommitRecord>): set<AggregateRoot> {
    set i | 0 <= i < |records| :: records[i].aggregate
  }

  function Views(records: seq<CommitRecord>): (vs: seq<View>)
    reads Aggregates(records)
    ensures |vs| == |records| && forall i :: 0 <= i < |records| ==> vs[i] == ViewOf(records[i].aggregate)
  {
    seq(|records|, i requires 0 <= i < |records| reads Aggregates(records) => ViewOf(records[i].aggregate))
  }

  method Acknowledge(records: seq<CommitRecord>)
    requires forall i, j :: 0 <= i < j < |records| ==> records[i].aggregate != records[j].aggregate
    modifies Aggregates(records)
    ensures forall i :: 0 <= i < |records| ==>
              ViewOf(records[i].aggregate) == Acknowledged(old(ViewOf(records[i].aggregate)), records[i].disposition)
    ensures forall i :: 0 <= i < |records| ==>
              && records[i].aggregate.pendingEvents == []
              && records[i].aggregate.version == old(records[i].aggregate.version)
              && records[i].aggregate.persistedVersion
                 == if records[i].disposition.Saved? then Some(old(records[i].aggregate.version))
                    else old(records[i].aggregate.persistedVersion)
  {
    for i := 0 to |records|
      invariant forall j :: 0 <= j < i ==>
        && records[j].aggregate.pendingEvents == []
        && records[j].aggregate.version == old(records[j].aggregate.version)
        && records[j].aggregate.persistedVersion
           == if records[j].disposition.Saved? then Some(old(records[j].aggregate.version))
              else old(records[j].aggregate.persistedVersion)
      invariant forall j :: i <= j < |records| ==> ViewOf(records[j].aggregate) == old(ViewOf(records[j].aggregate))
    {
      var aggregate := records[i].aggregate;
      if records[i].disposition.Saved? {
        aggregate.persistedVersion := Some(aggregate.version);
      }
      aggregate.pendingEvents := [];
    }
  }

  /** The part inside the transaction, and the acknowledgement after it. */
  method CommitResolved(records: seq<CommitRecord>, outbox: InMemoryOutbox, transaction: StorageCall)
    returns (error: Option<CommitError>, candidates: seq<Candidate>)
    requires outbox.Valid()
    requires forall i, j :: 0 <= i < j < |records| ==> records[i].aggregate != records[j].aggregate
    modifies outbox, Aggregates(records)
    ensures outbox.Valid()
    ensures var harvested := Harvest(old(Views(records)));
            error == if harvested.Err? then Some(harvested.error)
                     else if Outboxes.Add(outbox.limits, old(outbox.AsState()), harvested.value).error.Some? then
                       Some(OutboxRejected)
                     else if transaction.Succeeds? then None else Some(TransactionFailed)
    ensures error.None? || outbox.AsState() != old(outbox.AsState()) ==>
              && Harvest(old(Views(records))) == Ok(candidates)
              && AddOutcome(outbox.AsState(), None) == Outboxes.Add(outbox.limits, old(outbox.AsState()), candidates)
    ensures error.Some? && !transaction.FailsApplied? ==>
            outbox.AsState() == old(outbox.AsState()) && outbox.history == old(outbox.history)
    ensures error.Some? ==>
              forall i :: 0 <= i < |records| ==> ViewOf(records[i].aggregate) == old(ViewOf(records[i].aggregate))
    ensures error.None? ==>
              forall i :: 0 <= i < |records| ==>
                && records[i].aggregate.pendingEvents == []
                && records[i].aggregate.version == old(records[i].aggregate.version)
                && records[i].aggregate.persistedVersion
                   == if records[i].disposition.Saved? then Some(old(records[i].aggregate.version))
                      else old(records[i].aggregate.persistedVersion)
  {
    hide StorageInv, WithinLimits, ChainInv, NoRefresh, Precheck, AddLoop, Outboxes.Add, Harvest;
    candidates := [];
    var harvested := Harvest(Views(records));
    if harvested.Err? {
      return Some(harvested.error), [];
    }
    candidates := harvested.value;
    var before := outbox.AsState();
    ghost var past := outbox.history;
    var rejected: Option<AddError> := None;
    if |candidates| > 0 {
      rejected := outbox.Add(candidates);
    } else {
      AddNothing(outbox.limits, before);
      assert candidates == [];
    }
    if rejected.Some? || transaction.FailsUnapplied? {
      outbox.Restore(before, past);
      return Some(if rejected.Some? then OutboxRejected else TransactionFailed), candidates;
    }
    if transaction.FailsApplied? {
      return Some(TransactionFailed), candidates;
    }
    Acknowledge(records);
    return None, candidates;
  }

  /** Every minted token was presented, and nothing else. */
  ghost predicate Complete(scope: CommitTokenScope, tokens: seq<Token>)
    reads scope
  {
    forall t :: t in tokens <==> t in scope.recordsByToken
  }

  /** One attempt. `work` is what the callback returned or threw, having enrolled its writes in
      `scope`; `transaction` says how the transaction fares: it commits, it fails and restores the
      outbox, or it throws although it committed. Whatever throws, nothing is acknowledged. */
  method WithCommit(scope: CommitTokenScope, work: Result<seq<Token>, CommitError>, outbox: InMemoryOutbox,
                    transaction: StorageCall)
    returns (error: Option<CommitError>, records: seq<CommitRecord>, candidates: seq<Candidate>,
             ghost resolved: seq<CommitRecord>)
    requires scope.Valid() && outbox.Valid()
    modifies scope`open, outbox, scope.tokensByAggregate.Keys
    ensures outbox.Valid()
    ensures error.Some? ==> forall a :: a in scope.tokensByAggregate ==> ViewOf(a) == old(ViewOf(a))
    ensures error.Some? && !transaction.FailsApplied? ==>
            outbox.AsState() == old(outbox.AsState()) && outbox.history == old(outbox.history)
    ensures error.None? || outbox.AsState() != old(outbox.AsState()) ==>
              && work.Ok? && Complete(scope, work.value)
              && records == resolved && scope.IsResolution(records, work.value)
              && Aggregates(records) == scope.tokensByAggregate.Keys
              && Harvest(old(Views(records))) == Ok(candidates)
              && AddOutcome(outbox.AsState(), None) == Outboxes.Add(outbox.limits, old(outbox.AsState()), candidates)
    ensures work.Err? ==> error == Some(work.error)
    ensures work.Ok? && !Complete(scope, work.value) ==>
            error == Some(if forall t :: t in work.value ==> t in scope.recordsByToken
                          then TokenMissing else ForeignToken)
    ensures work.Ok? && Complete(scope, work.value) ==>
              && scope.IsResolution(resolved, work.value)
              && Aggregates(resolved) == scope.tokensByAggregate.Keys
              && var harvested := Harvest(old(Views(resolved)));
                 error == if harvested.Err? then Some(harvested.error)
                          else if Outboxes.Add(outbox.limits, old(outbox.AsState()), harvested.value).error.Some? then
                            Some(OutboxRejected)
                          else if transaction.Succeeds? then None else Some(TransactionFailed)
    ensures error.None? ==>
              forall a :: a in scope.tokensByAggregate ==>
                && a.pendingEvents == [] && a.version == old(a.version)
                && scope.tokensByAggregate[a] in scope.recordsByToken
                && a.persistedVersion
                   == match scope.recordsByToken[scope.tokensByAggregate[a]].disposition
                      case Saved => Some(old(a.version))
                      case Deleted => old(a.persistedVersion)
  {
    hide RegistryOk, StorageInv, WithinLimits, ChainInv, Outboxes.Add, Harvest, FirstOccurrences;
    records, candidates, resolved := [], [], [];
    scope.Close();
    if work.Err? {
      return Some(work.error), [], [], [];
    }
    var result := scope.Resolve(work.value);
    if result.Err? {
      return Some(result.error), [], [], [];
    }
    resolved := result.value;
    scope.ResolutionIsOneEach(resolved, work.value);
    assert Aggregates(resolved) == scope.tokensByAggregate.Keys;
    error, candidates := CommitResolved(result.value, outbox, transaction);
    if error.Some? && !transaction.FailsApplied? {
      return error, [], [], resolved;
    }
    records := result.value;
    forall a | a in scope.tokensByAggregate
      ensures exists i :: 0 <= i < |records| && records[i].aggregate == a
                          && scope.tokensByAggregate[a] in scope.recordsByToken
                          && records[i] == scope.recordsByToken[scope.tokensByAggregate[a]] {
      RecordOf(scope, records, work.value, a);
    }
  }

  /** An enrolled aggregate's record in a resolution is the one registered under its token. */
  lemma RecordOf(scope: CommitTokenScope, records: seq<CommitRecord>, tokens: seq<Token>, a: AggregateRoot)
    requires scope.Valid() && scope.IsResolution(records, tokens) && Complete(scope, tokens)
    requires a in scope.tokensByAggregate
    ensures scope.tokensByAggregate[a] in scope.recordsByToken
    ensures exists i :: 0 <= i < |records| && records[i].aggregate == a
                        && records[i] == scope.recordsByToken[scope.tokensByAggregate[a]]
  {
    scope.ResolutionIsOneEach(records, tokens);
  }

  lemma AddNothing(l: Limits, s: State)
    requires WithinLimits(l, s)
    ensures Outboxes.Add(l, s, []) == AddOutcome(s, None)
  {
  }
}
