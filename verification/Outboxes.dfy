/** The in-memory outbox as pure functions on its state: the three batch pre-checks, the
    main `add` loop one candidate at a time, dispatch marking and failure marking. */
module Outboxes {
  import opened Common
  import opened OrderedMaps

  datatype Candidate = Candidate(event: Event, source: Address, position: CandidatePosition)

  /** A tracked record; dead letters carry the same fields. */
  datatype Record = Record(
    dispatchId: string,
    event: Event,
    source: Address,
    position: Position,
    attempts: nat,
    lastError: Option<string>)

  /** Latest eventful commit of one source, with the owner of each recorded sequence. */
  datatype Cursor = Cursor(
    aggregateVersion: int,
    previous: Option<int>,
    commitSize: int,
    owners: map<int, string>)

  type Cursors = map<Address, Cursor>

  datatype Receipt = Receipt(source: Address, position: CandidatePosition)

  datatype Limits = Limits(
    maxDeliveryAttempts: nat,
    maxRetained: nat,
    maxRecords: Option<nat>,
    maxSources: Option<nat>)

  ghost predicate ValidLimits(l: Limits) {
    && 0 < l.maxDeliveryAttempts
    && 0 < l.maxRetained
    && (l.maxRecords.Some? ==> 0 < l.maxRecords.value)
    && (l.maxSources.Some? ==> 0 < l.maxSources.value)
  }

  datatype State = State(
    pending: OrderedMap<string, Record>,
    dead: OrderedMap<string, Record>,
    cursors: Cursors,
    dispatched: OrderedMap<string, Receipt>)

  const EMPTY := State(Empty(), Empty(), map[], Empty())

  datatype AddError =
    | SourceCollision
    | ReceiptChanged
    | StaleHead
    | CommitSizeMismatch
    | PositionOwned
    | RecordCapacity
    | SourceCapacity

  // ---- receipts ----

  /** assertSameEventSource followed by assertSameCandidateReceipt. */
  function ReceiptMismatch(c: Candidate, source: Address, recorded: CandidatePosition, allowRefresh: bool)
    : Option<AddError>
  {
    if c.source != source then Some(SourceCollision)
    else if (allowRefresh || c.position.aggregateVersion == recorded.aggregateVersion)
            && c.position.commitSequence == recorded.commitSequence
            && c.position.commitSize == recorded.commitSize then None
    else Some(ReceiptChanged)
  }

  function OrElse(a: Option<AddError>, b: Option<AddError>): Option<AddError> {
    if a.Some? then a else b
  }

  /** The candidate contradicts what the state already records under its event id. */
  function StoredMismatch(s: State, c: Candidate): Option<AddError> {
    var id := c.event.eventId;
    if s.dispatched.Has(id) then
      ReceiptMismatch(c, s.dispatched.entries[id].source, s.dispatched.entries[id].position, false)
    else
      OrElse(
        if s.pending.Has(id) then
          ReceiptMismatch(c, s.pending.entries[id].source, Unlinked(s.pending.entries[id].position), true)
        else None,
        if s.dead.Has(id) then
          ReceiptMismatch(c, s.dead.entries[id].source, Unlinked(s.dead.entries[id].position), false)
        else None)
  }

  // ---- the main loop, one candidate ----

  function RememberDispatched(max: nat, d: OrderedMap<string, Receipt>, id: string, r: Receipt)
    : OrderedMap<string, Receipt>
  {
    Evict(max, d.Delete(id).Set(id, r))
  }

  /** Drops the oldest receipts until at most `max` remain. */
  function Evict(max: nat, d: OrderedMap<string, Receipt>): OrderedMap<string, Receipt>
    decreases |d.order|
  {
    if |d.order| <= max then d else Evict(max, OrderedMap(d.order[1..], d.entries - {d.order[0]}))
  }

  function CursorWithEvent(c: Cursor, sequence: int, id: string): Cursor {
    c.(owners := c.owners[sequence := id])
  }

  function FreshCursor(previous: Option<int>, p: CandidatePosition, id: string): Cursor {
    Cursor(p.aggregateVersion, previous, p.commitSize, map[p.commitSequence := id])
  }

  function HeadVersion(cursors: Cursors, source: Address): Option<int> {
    if source in cursors then Some(cursors[source].aggregateVersion) else None
  }

  predicate IsStale(s: State, c: Candidate) {
    var id := c.event.eventId;
    if s.pending.Has(id) then c.position.aggregateVersion < s.pending.entries[id].position.aggregateVersion
    else c.source in s.cursors && c.position.aggregateVersion < s.cursors[c.source].aggregateVersion
  }

  /** The head commit is at the candidate's version and disagrees with it. */
  function HeadConflict(cursors: Cursors, c: Candidate): Option<AddError> {
    if c.source in cursors && cursors[c.source].aggregateVersion == c.position.aggregateVersion then
      var head := cursors[c.source];
      if head.commitSize != c.position.commitSize then Some(CommitSizeMismatch)
      else if c.position.commitSequence in head.owners && head.owners[c.position.commitSequence] != c.event.eventId then
        Some(PositionOwned)
      else None
    else None
  }

  /** A pending event re-added at another aggregate version. */
  predicate IsVersionRefresh(s: State, c: Candidate) {
    var id := c.event.eventId;
    && !s.dispatched.Has(id)
    && !s.dead.Has(id)
    && s.pending.Has(id)
    && s.pending.entries[id].position.aggregateVersion != c.position.aggregateVersion
  }

  /** The source heads after a candidate that is neither dispatched nor dead. */
  function NextCursors(s: State, c: Candidate): Cursors {
    var id, p := c.event.eventId, c.position;
    if s.pending.Has(id) then
      var prior := s.pending.entries[id].position;
      if prior.aggregateVersion == p.aggregateVersion then s.cursors
      else if HeadVersion(s.cursors, c.source) == Some(prior.aggregateVersion) then
        s.cursors[c.source := FreshCursor(prior.previous, p, id)]
      else WithOwner(s.cursors, c)
    else if HeadVersion(s.cursors, c.source) == Some(p.aggregateVersion) then WithOwner(s.cursors, c)
    else s.cursors[c.source := FreshCursor(HeadVersion(s.cursors, c.source), p, id)]
  }

  /** Records the candidate's owner in the head commit when the head is at its version. */
  function WithOwner(cursors: Cursors, c: Candidate): Cursors {
    if HeadVersion(cursors, c.source) == Some(c.position.aggregateVersion)
       && c.position.commitSequence !in cursors[c.source].owners
    then cursors[c.source := CursorWithEvent(cursors[c.source], c.position.commitSequence, c.event.eventId)]
    else cursors
  }

  function NextPrevious(s: State, c: Candidate): Option<int> {
    var id := c.event.eventId;
    if s.pending.Has(id) then s.pending.entries[id].position.previous
    else if HeadVersion(s.cursors, c.source) == Some(c.position.aggregateVersion) then s.cursors[c.source].previous
    else HeadVersion(s.cursors, c.source)
  }

  function NextRecord(s: State, c: Candidate): Record {
    var id, p := c.event.eventId, c.position;
    var owned := Position(p.aggregateVersion, p.commitSequence, p.commitSize, NextPrevious(s, c));
    if s.pending.Has(id) then s.pending.entries[id].(event := c.event, source := c.source, position := owned)
    else Record(id, c.event, c.source, owned, 0, None)
  }

  function Requeue(s: State, id: string): State
    requires s.dead.Has(id)
  {
    s.(dead := s.dead.Delete(id),
       pending := s.pending.Set(id, s.dead.entries[id].(attempts := 0, lastError := None)))
  }

  /** One iteration of the `add` loop; an error leaves the state as it was. */
  function AddOne(l: Limits, s: State, c: Candidate): Result<State, AddError> {
    var id := c.event.eventId;
    var mismatch := StoredMismatch(s, c);
    if mismatch.Some? then Err(mismatch.value)
    else if s.dispatched.Has(id) then
      Ok(s.(dispatched := RememberDispatched(l.maxRetained, s.dispatched, id, s.dispatched.entries[id])))
    else if s.dead.Has(id) then Ok(Requeue(s, id))
    else if IsStale(s, c) then Err(StaleHead)
    else if HeadConflict(s.cursors, c).Some? then Err(HeadConflict(s.cursors, c).value)
    else Ok(s.(cursors := NextCursors(s, c), pending := s.pending.Set(id, NextRecord(s, c))))
  }

  datatype AddOutcome = AddOutcome(state: State, error: Option<AddError>)

  /** The whole loop: the first rejection stops it and keeps the earlier prefix. */
  function AddLoop(l: Limits, s: State, cs: seq<Candidate>): AddOutcome {
    if |cs| == 0 then AddOutcome(s, None) else
    var before := AddLoop(l, s, cs[..|cs| - 1]);
    if before.error.Some? then before else
    var r := AddOne(l, before.state, cs[|cs| - 1]);
    if r.Ok? then AddOutcome(r.value, None) else AddOutcome(before.state, Some(r.error))
  }

  // ---- the batch pre-checks ----

  /** First receipt of each event id in the batch. */
  function FirstReceipts(cs: seq<Candidate>): map<string, Receipt> {
    if |cs| == 0 then map[] else
    var seen, c := FirstReceipts(cs[..|cs| - 1]), cs[|cs| - 1];
    if c.event.eventId in seen then seen else seen[c.event.eventId := Receipt(c.source, c.position)]
  }

  function BatchMismatch(s: State, seen: map<string, Receipt>, c: Candidate): Option<AddError> {
    var id := c.event.eventId;
    OrElse(if id in seen then ReceiptMismatch(c, seen[id].source, seen[id].position, false) else None,
           StoredMismatch(s, c))
  }

  function ReceiptPrecheck(s: State, cs: seq<Candidate>): Option<AddError> {
    if |cs| == 0 then None
    else OrElse(ReceiptPrecheck(s, cs[..|cs| - 1]),
                BatchMismatch(s, FirstReceipts(cs[..|cs| - 1]), cs[|cs| - 1]))
  }

  function SimulateOne(sim: Cursors, c: Candidate): Result<Cursors, AddError> {
    var id, p := c.event.eventId, c.position;
    if c.source !in sim || p.aggregateVersion > sim[c.source].aggregateVersion then
      Ok(sim[c.source := FreshCursor(HeadVersion(sim, c.source), p, id)])
    else if p.aggregateVersion < sim[c.source].aggregateVersion then Ok(sim)
    else if HeadConflict(sim, c).Some? then Err(HeadConflict(sim, c).value)
    else Ok(WithOwner(sim, c))
  }

  /** The position pre-check replays the batch on a copy of the source heads. */
  function Simulate(cursors: Cursors, cs: seq<Candidate>): Result<Cursors, AddError> {
    if |cs| == 0 then Ok(cursors) else
    var before := Simulate(cursors, cs[..|cs| - 1]);
    if before.Err? then before else SimulateOne(before.value, cs[|cs| - 1])
  }

  predicate IsKnown(s: State, id: string) {
    s.pending.Has(id) || s.dead.Has(id) || s.dispatched.Has(id)
  }

  function NewRecordIds(s: State, cs: seq<Candidate>): set<string> {
    set c | c in cs && !IsKnown(s, c.event.eventId) :: c.event.eventId
  }

  function NewSources(s: State, cs: seq<Candidate>): set<Address> {
    set c | c in cs && !IsKnown(s, c.event.eventId) && c.source !in s.cursors :: c.source
  }

  function CapacityPrecheck(l: Limits, s: State, cs: seq<Candidate>): Option<AddError> {
    if l.maxRecords.Some? && s.pending.Size() + s.dead.Size() + |NewRecordIds(s, cs)| > l.maxRecords.value then
      Some(RecordCapacity)
    else if l.maxSources.Some? && |s.cursors| + |NewSources(s, cs)| > l.maxSources.value then Some(SourceCapacity)
    else None
  }

  function Precheck(l: Limits, s: State, cs: seq<Candidate>): Option<AddError> {
    var receipts := ReceiptPrecheck(s, cs);
    if receipts.Some? then receipts else
    var positions := Simulate(s.cursors, cs);
    if positions.Err? then Some(positions.error) else CapacityPrecheck(l, s, cs)
  }

  /** `add`: the pre-checks reject before anything changes; otherwise the loop runs. */
  function Add(l: Limits, s: State, cs: seq<Candidate>): AddOutcome {
    var problem := Precheck(l, s, cs);
    if problem.Some? then AddOutcome(s, problem) else AddLoop(l, s, cs)
  }

  // ---- delivery ----

  function PendingRecords(s: State): (rs: seq<Record>)
    requires s.pending.Valid()
    ensures |rs| == |s.pending.order|
    ensures forall i :: 0 <= i < |rs| ==> rs[i] == s.pending.entries[s.pending.order[i]]
  {
    seq(|s.pending.order|, i requires 0 <= i < |s.pending.order| => s.pending.entries[s.pending.order[i]])
  }

  function MarkOneDispatched(l: Limits, s: State, id: string): State {
    var record := if s.pending.Has(id) then s.pending.Get(id) else s.dead.Get(id);
    State(
      s.pending.Delete(id),
      s.dead.Delete(id),
      s.cursors,
      if record.Some? then
        RememberDispatched(l.maxRetained, s.dispatched, id,
                           Receipt(record.value.source, Unlinked(record.value.position)))
      else s.dispatched)
  }

  function MarkDispatched(l: Limits, s: State, ids: seq<string>): State {
    if |ids| == 0 then s
    else MarkOneDispatched(l, MarkDispatched(l, s, ids[..|ids| - 1]), ids[|ids| - 1])
  }

  /** The failed record, one attempt later. */
  function Failed(r: Record, error: string): Record {
    r.(attempts := r.attempts + 1, lastError := Some(error))
  }

  /** A failed delivery: one more attempt, and at the ceiling the record becomes a dead letter. */
  function MarkFailed(l: Limits, s: State, id: string, error: string): State {
    if !s.pending.Has(id) then s else
    var record := Failed(s.pending.entries[id], error);
    if record.attempts >= l.maxDeliveryAttempts
    then s.(pending := s.pending.Delete(id), dead := s.dead.Set(id, record))
    else s.(pending := s.pending.Set(id, record))
  }
}
