/** The in-memory deadline store as pure functions: one pending incarnation per slot, a fresh
    delivery id for each, bounded delivery attempts and dead letters. */
module Deadlines {
  import opened Common
  import opened Decimals

  /** A deadline's address. The source joins the two with a NUL character; the model keeps the pair. */
  datatype Slot = Slot(scope: string, key: string)

  datatype Deadline = Deadline(
    deliveryId: string,
    slot: Slot,
    dueAt: int,
    payload: string,
    attempts: nat,
    sequence: nat,
    lastError: Option<string>)

  datatype State = State(pending: map<Slot, Deadline>, dead: map<string, Deadline>, nextSequence: nat)

  datatype Limits = Limits(maxDeliveryAttempts: nat, maxRecords: Option<nat>)

  const EMPTY := State(map[], map[], 0)

  function DeliveryId(sequence: nat): string {
    "deadline-" + ToDecimal(sequence)
  }

  lemma DeliveryIdIsInjective(a: nat, b: nat)
    requires DeliveryId(a) == DeliveryId(b)
    ensures a == b
  {
    assert DeliveryId(a)[|"deadline-"|..] == ToDecimal(a);
    assert DeliveryId(b)[|"deadline-"|..] == ToDecimal(b);
    DecimalIsInjective(a, b);
  }

  function NewDeadline(s: State, slot: Slot, dueAt: int, payload: string): Deadline {
    Deadline(DeliveryId(s.nextSequence), slot, dueAt, payload, 0, s.nextSequence, None)
  }

  /** None is the capacity rejection, which changes nothing. */
  function Schedule(l: Limits, s: State, slot: Slot, dueAt: int, payload: string): Option<State> {
    if slot !in s.pending && l.maxRecords.Some? && |s.pending| + |s.dead| >= l.maxRecords.value then None
    else Some(s.(pending := s.pending[slot := NewDeadline(s, slot, dueAt, payload)],
                 nextSequence := s.nextSequence + 1))
  }

  function Cancel(s: State, slot: Slot): State {
    s.(pending := s.pending - {slot})
  }

  /** The slot whose pending incarnation has this delivery id. */
  ghost function Find(pending: map<Slot, Deadline>, id: string): (slot: Option<Slot>)
    ensures slot.Some? ==> slot.value in pending && pending[slot.value].deliveryId == id
    ensures slot.None? ==> forall k :: k in pending ==> pending[k].deliveryId != id
  {
    if k :| k in pending && pending[k].deliveryId == id then Some(k) else None
  }

  ghost function MarkOneDelivered(s: State, id: string): State {
    var slot := Find(s.pending, id);
    s.(pending := if slot.Some? then s.pending - {slot.value} else s.pending, dead := s.dead - {id})
  }

  ghost function MarkDelivered(s: State, ids: seq<string>): State {
    if |ids| == 0 then s else MarkOneDelivered(MarkDelivered(s, ids[..|ids| - 1]), ids[|ids| - 1])
  }

  /** One attempt more; a report without an error keeps the recorded reason. */
  function Failed(d: Deadline, error: Option<string>): Deadline {
    d.(attempts := d.attempts + 1, lastError := if error.Some? then error else d.lastError)
  }

  ghost function MarkFailed(l: Limits, s: State, id: string, error: Option<string>): State {
    var slot := Find(s.pending, id);
    if slot.None? then s else
    var failed := Failed(s.pending[slot.value], error);
    if failed.attempts >= l.maxDeliveryAttempts
    then s.(pending := s.pending - {slot.value}, dead := s.dead[id := failed])
    else s.(pending := s.pending[slot.value := failed])
  }

  // ---- the invariant ----

  predicate PendingOk(l: Limits, next: nat, slot: Slot, d: Deadline) {
    d.slot == slot && d.deliveryId == DeliveryId(d.sequence) && d.sequence < next && d.attempts < l.maxDeliveryAttempts
  }

  predicate DeadOk(l: Limits, next: nat, id: string, d: Deadline) {
    d.deliveryId == id && id == DeliveryId(d.sequence) && d.sequence < next && d.attempts == l.maxDeliveryAttempts
  }

  /** No two records share an incarnation. */
  ghost predicate OwnSequences(pending: map<Slot, Deadline>, dead: map<string, Deadline>) {
    && (forall j, k :: j in pending && k in pending && j != k ==> pending[j].sequence != pending[k].sequence)
    && (forall k, id :: k in pending && id in dead ==> pending[k].sequence != dead[id].sequence)
  }

  /** At most one pending incarnation per slot is the shape of the map; no two records share an
      incarnation, and the attempt ceiling separates pending from dead. */
  ghost predicate Inv(l: Limits, s: State) {
    && 0 < l.maxDeliveryAttempts
    && (forall k :: k in s.pending ==> PendingOk(l, s.nextSequence, k, s.pending[k]))
    && (forall id :: id in s.dead ==> DeadOk(l, s.nextSequence, id, s.dead[id]))
    && OwnSequences(s.pending, s.dead)
    && (l.maxRecords.Some? ==> |s.pending| + |s.dead| <= l.maxRecords.value)
  }

  /** Under the invariant an id names at most one pending incarnation and no dead one besides. */
  lemma IdNamesOne(l: Limits, s: State, k: Slot)
    requires Inv(l, s) && k in s.pending
    ensures Find(s.pending, s.pending[k].deliveryId) == Some(k)
    ensures s.pending[k].deliveryId !in s.dead
  {
    var id := s.pending[k].deliveryId;
    var found := Find(s.pending, id).value;
    DeliveryIdIsInjective(s.pending[found].sequence, s.pending[k].sequence);
    if id in s.dead {
      DeliveryIdIsInjective(s.dead[id].sequence, s.pending[k].sequence);
    }
  }

  lemma RemoveSize<K, V>(m: map<K, V>, k: K)
    ensures |m - {k}| == if k in m then |m| - 1 else |m|
  {
    assert (m - {k}).Keys == m.Keys - {k};
    assert |(m - {k}).Keys| == |m - {k}| && |m.Keys| == |m|;
  }

  lemma InsertSize<K, V>(m: map<K, V>, k: K, v: V)
    ensures |m[k := v]| == if k in m then |m| else |m| + 1
  {
    assert m[k := v].Keys == m.Keys + {k};
    assert |m[k := v].Keys| == |m[k := v]| && |m.Keys| == |m|;
  }

  lemma InsertKeepsOk(l: Limits, s: State, slot: Slot, d: Deadline, inserted: map<Slot, Deadline>)
    requires Inv(l, s) && PendingOk(l, s.nextSequence + 1, slot, d) && inserted == s.pending[slot := d]
    ensures forall k :: k in inserted ==> PendingOk(l, s.nextSequence + 1, k, inserted[k])
    ensures forall id :: id in s.dead ==> DeadOk(l, s.nextSequence + 1, id, s.dead[id])
    ensures d.sequence == s.nextSequence ==> OwnSequences(inserted, s.dead)
  {
  }

  lemma ScheduleKeepsInv(l: Limits, s: State, slot: Slot, dueAt: int, payload: string)
    requires Inv(l, s) && Schedule(l, s, slot, dueAt, payload).Some?
    ensures Inv(l, Schedule(l, s, slot, dueAt, payload).value)
  {
    var d := NewDeadline(s, slot, dueAt, payload);
    assert PendingOk(l, s.nextSequence + 1, slot, d) && d.sequence == s.nextSequence;
    InsertSize(s.pending, slot, d);
    InsertKeepsOk(l, s, slot, d, s.pending[slot := d]);
    hide NewDeadline, PendingOk, DeadOk, OwnSequences;
  }

  lemma CancelKeepsInv(l: Limits, s: State, slot: Slot)
    requires Inv(l, s)
    ensures Inv(l, Cancel(s, slot))
  {
    RemoveSize(s.pending, slot);
  }

  lemma MarkOneDeliveredKeepsInv(l: Limits, s: State, id: string)
    requires Inv(l, s)
    ensures Inv(l, MarkOneDelivered(s, id))
  {
    RemoveSize(s.dead, id);
    var slot := Find(s.pending, id);
    if slot.Some? {
      RemoveSize(s.pending, slot.value);
    }
  }

  lemma {:induction false} MarkDeliveredKeepsInv(l: Limits, s: State, ids: seq<string>)
    requires Inv(l, s)
    ensures Inv(l, MarkDelivered(s, ids))
  {
    if |ids| > 0 {
      MarkDeliveredKeepsInv(l, s, ids[..|ids| - 1]);
      MarkOneDeliveredKeepsInv(l, MarkDelivered(s, ids[..|ids| - 1]), ids[|ids| - 1]);
    }
  }

  lemma DyingKeepsInv(l: Limits, s: State, slot: Slot, failed: Deadline)
    requires Inv(l, s) && slot in s.pending
    requires failed.deliveryId == s.pending[slot].deliveryId && failed.sequence == s.pending[slot].sequence
    requires failed.attempts == l.maxDeliveryAttempts
    ensures Inv(l, s.(pending := s.pending - {slot}, dead := s.dead[failed.deliveryId := failed]))
  {
    assert PendingOk(l, s.nextSequence, slot, s.pending[slot]);
    RemoveSize(s.pending, slot);
    InsertSize(s.dead, failed.deliveryId, failed);
    IdNamesOne(l, s, slot);
    hide Find;
  }

  lemma RetryKeepsSequences(pending: map<Slot, Deadline>, dead: map<string, Deadline>, slot: Slot, failed: Deadline)
    requires OwnSequences(pending, dead) && slot in pending && failed.sequence == pending[slot].sequence
    ensures OwnSequences(pending[slot := failed], dead)
  {
    var after := pending[slot := failed];
    assert forall k :: k in after ==> k in pending && after[k].sequence == pending[k].sequence;
  }

  lemma RetryKeepsInv(l: Limits, s: State, slot: Slot, failed: Deadline)
    requires Inv(l, s) && slot in s.pending && PendingOk(l, s.nextSequence, slot, failed)
    requires failed.sequence == s.pending[slot].sequence
    ensures Inv(l, s.(pending := s.pending[slot := failed]))
  {
    InsertSize(s.pending, slot, failed);
    RetryKeepsSequences(s.pending, s.dead, slot, failed);
    hide OwnSequences, DeadOk, PendingOk;
  }

  lemma MarkFailedKeepsInv(l: Limits, s: State, id: string, error: Option<string>)
    requires Inv(l, s)
    ensures Inv(l, MarkFailed(l, s, id, error))
  {
    var slot := Find(s.pending, id);
    if slot.Some? {
      var d := s.pending[slot.value];
      assert PendingOk(l, s.nextSequence, slot.value, d);
      var failed := Failed(d, error);
      if failed.attempts >= l.maxDeliveryAttempts {
        DyingKeepsInv(l, s, slot.value, failed);
      } else {
        RetryKeepsInv(l, s, slot.value, failed);
      }
      hide Inv, Find;
    }
  }

  // ---- runs ----

  datatype Action =
    | DoSchedule(slot: Slot, dueAt: int, payload: string)
    | DoCancel(slot: Slot)
    | DoMarkDelivered(ids: seq<string>)
    | DoMarkFailed(id: string, error: Option<string>)

  ghost function Step(l: Limits, s: State, a: Action): State {
    match a
    case DoSchedule(slot, dueAt, payload) =>
      var r := Schedule(l, s, slot, dueAt, payload);
      if r.Some? then r.value else s
    case DoCancel(slot) => Cancel(s, slot)
    case DoMarkDelivered(ids) => MarkDelivered(s, ids)
    case DoMarkFailed(id, error) => MarkFailed(l, s, id, error)
  }

  ghost function Run(l: Limits, actions: seq<Action>): State {
    if |actions| == 0 then EMPTY else Step(l, Run(l, actions[..|actions| - 1]), actions[|actions| - 1])
  }

  /** The delivery id an action issues. */
  ghost function Issues(l: Limits, s: State, a: Action): Option<string> {
    if a.DoSchedule? && Schedule(l, s, a.slot, a.dueAt, a.payload).Some? then Some(DeliveryId(s.nextSequence)) else None
  }

  lemma StepKeepsInv(l: Limits, s: State, a: Action)
    requires Inv(l, s)
    ensures Inv(l, Step(l, s, a))
  {
    match a
    case DoSchedule(slot, dueAt, payload) =>
      if Schedule(l, s, slot, dueAt, payload).Some? { ScheduleKeepsInv(l, s, slot, dueAt, payload); }
    case DoCancel(slot) => CancelKeepsInv(l, s, slot);
    case DoMarkDelivered(ids) => MarkDeliveredKeepsInv(l, s, ids);
    case DoMarkFailed(id, error) => MarkFailedKeepsInv(l, s, id, error);
  }

  /** Every reachable store satisfies the invariant. */
  lemma {:induction false} RunKeepsInv(l: Limits, actions: seq<Action>)
    requires 0 < l.maxDeliveryAttempts
    ensures Inv(l, Run(l, actions))
  {
    if |actions| > 0 {
      RunKeepsInv(l, actions[..|actions| - 1]);
      StepKeepsInv(l, Run(l, actions[..|actions| - 1]), actions[|actions| - 1]);
    }
  }

  lemma {:induction false} MarkDeliveredSequence(s: State, ids: seq<string>)
    ensures MarkDelivered(s, ids).nextSequence == s.nextSequence
  {
    if |ids| > 0 {
      MarkDeliveredSequence(s, ids[..|ids| - 1]);
    }
  }

  lemma StepSequence(l: Limits, s: State, a: Action)
    ensures Step(l, s, a).nextSequence == if Issues(l, s, a).Some? then s.nextSequence + 1 else s.nextSequence
  {
    if a.DoMarkDelivered? {
      MarkDeliveredSequence(s, a.ids);
    }
  }

  lemma {:induction false} SequenceGrows(l: Limits, actions: seq<Action>, n: nat)
    requires n < |actions|
    requires Issues(l, Run(l, actions[..n]), actions[n]).Some?
    ensures Run(l, actions[..n]).nextSequence < Run(l, actions).nextSequence
    decreases |actions|
  {
    hide Step, Issues;
    var m := |actions| - 1;
    assert actions[..m][..n] == actions[..n];
    StepSequence(l, Run(l, actions[..m]), actions[m]);
    if n < m {
      SequenceGrows(l, actions[..m], n);
    }
  }

  /** No delivery id is ever issued twice. */
  lemma IdsAreNeverReused(l: Limits, actions: seq<Action>, i: nat, j: nat)
    requires i < j < |actions|
    requires Issues(l, Run(l, actions[..i]), actions[i]).Some? && Issues(l, Run(l, actions[..j]), actions[j]).Some?
    ensures Issues(l, Run(l, actions[..i]), actions[i]) != Issues(l, Run(l, actions[..j]), actions[j])
  {
    assert actions[..j][..i] == actions[..i];
    SequenceGrows(l, actions[..j], i);
    if DeliveryId(Run(l, actions[..i]).nextSequence) == DeliveryId(Run(l, actions[..j]).nextSequence) {
      DeliveryIdIsInjective(Run(l, actions[..i]).nextSequence, Run(l, actions[..j]).nextSequence);
    }
  }

  /** The record an id names, wherever it is. */
  ghost predicate Names(s: State, id: string) {
    id in s.dead || exists k :: k in s.pending && s.pending[k].deliveryId == id
  }

  lemma {:induction false} DeliveredNamesNothingNew(s: State, ids: seq<string>, id: string)
    requires !Names(s, id)
    ensures !Names(MarkDelivered(s, ids), id)
  {
    if |ids| > 0 {
      DeliveredNamesNothingNew(s, ids[..|ids| - 1], id);
    }
  }

  /** An id that names nothing any more never names anything again unless it is issued anew. */
  lemma GoneStaysGone(l: Limits, s: State, a: Action, id: string)
    requires Inv(l, s) && !Names(s, id) && Issues(l, s, a) != Some(id)
    ensures !Names(Step(l, s, a), id)
  {
    match a
    case DoMarkDelivered(ids) => DeliveredNamesNothingNew(s, ids, id);
    case DoMarkFailed(other, error) =>
      var slot := Find(s.pending, other);
      assert slot.Some? ==> s.pending[slot.value].deliveryId == other && other != id;
    case _ =>
  }

  /** A stale id changes nothing: once its incarnation was replaced, cancelled, delivered or
      dead-lettered, a failure report changes nothing, and a delivery report at most forgets
      its own dead letter. */
  lemma StaleIdIsPowerless(l: Limits, s: State, id: string, error: Option<string>)
    requires Inv(l, s) && forall k :: k in s.pending ==> s.pending[k].deliveryId != id
    ensures MarkFailed(l, s, id, error) == s
    ensures MarkOneDelivered(s, id) == s.(dead := s.dead - {id})
  {
  }

  /** Scheduling over an occupied slot makes the old incarnation stale. */
  lemma ReplacementMakesStale(l: Limits, s: State, slot: Slot, dueAt: int, payload: string)
    requires Inv(l, s) && slot in s.pending
    ensures Schedule(l, s, slot, dueAt, payload).Some?
    ensures !Names(Schedule(l, s, slot, dueAt, payload).value, s.pending[slot].deliveryId)
  {
    var s' := Schedule(l, s, slot, dueAt, payload).value;
    var id := s.pending[slot].deliveryId;
    IdNamesOne(l, s, slot);
    if s'.pending[slot].deliveryId == id {
      DeliveryIdIsInjective(s.pending[slot].sequence, s.nextSequence);
    }
    forall k | k in s'.pending && k != slot ensures s'.pending[k].deliveryId != id {
      if s.pending[k].deliveryId == id {
        IdNamesOne(l, s, k);
      }
    }
  }

  // ---- what one call does, in terms of records ----

  /** The slot holds a new incarnation with these data that has not been tried. */
  predicate Holds(s: State, slot: Slot, dueAt: int, payload: string, sequence: nat) {
    slot in s.pending
    && s.pending[slot] == Deadline(DeliveryId(sequence), slot, dueAt, payload, 0, sequence, None)
  }

  ghost predicate OthersKept(before: State, after: State, slot: Slot) {
    forall k :: k != slot ==> (k in after.pending <==> k in before.pending)
                              && (k in before.pending ==> after.pending[k] == before.pending[k])
  }

  /** Scheduling is refused exactly for a new slot when the store is full. Otherwise the slot holds
      a fresh incarnation with the given time and payload, and no other record changed. */
  lemma ScheduleHolds(l: Limits, s: State, slot: Slot, dueAt: int, payload: string)
    requires Inv(l, s)
    ensures Schedule(l, s, slot, dueAt, payload).None? <==>
            slot !in s.pending && l.maxRecords == Some(|s.pending| + |s.dead|)
    ensures Schedule(l, s, slot, dueAt, payload).Some? ==>
              var s' := Schedule(l, s, slot, dueAt, payload).value;
              && Holds(s', slot, dueAt, payload, s.nextSequence) && s'.nextSequence == s.nextSequence + 1
              && OthersKept(s, s', slot) && s'.dead == s.dead
    ensures !Names(s, DeliveryId(s.nextSequence))
  {
    hide Inv, DeliveryId, Names;
    NextIdIsNew(l, s);
    WithinRecordLimit(l, s);
  }

  lemma WithinRecordLimit(l: Limits, s: State)
    requires Inv(l, s)
    ensures l.maxRecords.Some? ==> |s.pending| + |s.dead| <= l.maxRecords.value
  {
  }

  lemma NextIdIsNew(l: Limits, s: State)
    requires Inv(l, s)
    ensures !Names(s, DeliveryId(s.nextSequence))
  {
    var id := DeliveryId(s.nextSequence);
    if id in s.dead {
      DeliveryIdIsInjective(s.dead[id].sequence, s.nextSequence);
    }
    forall k | k in s.pending ensures s.pending[k].deliveryId != id {
      if s.pending[k].deliveryId == id {
        DeliveryIdIsInjective(s.pending[k].sequence, s.nextSequence);
      }
    }
    hide DeliveryId, OwnSequences;
  }

  lemma {:induction false} DeliveredOnlyForgets(s: State, ids: seq<string>, k: Slot)
    ensures k in MarkDelivered(s, ids).pending ==> k in s.pending && MarkDelivered(s, ids).pending[k] == s.pending[k]
    ensures k in s.pending && s.pending[k].deliveryId !in ids ==> k in MarkDelivered(s, ids).pending
  {
    if |ids| > 0 {
      DeliveredOnlyForgets(s, ids[..|ids| - 1], k);
    }
  }

  lemma {:induction false} DeliveredIsGone(l: Limits, s: State, ids: seq<string>, id: string)
    requires Inv(l, s) && id in ids
    ensures !Names(MarkDelivered(s, ids), id)
  {
    var before, last := MarkDelivered(s, ids[..|ids| - 1]), ids[|ids| - 1];
    MarkDeliveredKeepsInv(l, s, ids[..|ids| - 1]);
    if last != id {
      assert id in ids[..|ids| - 1];
      DeliveredIsGone(l, s, ids[..|ids| - 1], id);
    } else {
      forall k | k in before.pending && before.pending[k].deliveryId == id ensures Find(before.pending, id) == Some(k) {
        IdNamesOne(l, before, k);
      }
    }
  }

  lemma {:induction false} DeliveredDead(s: State, ids: seq<string>, id: string)
    ensures id in MarkDelivered(s, ids).dead <==> id in s.dead && id !in ids
    ensures id in MarkDelivered(s, ids).dead ==> MarkDelivered(s, ids).dead[id] == s.dead[id]
  {
    if |ids| > 0 {
      DeliveredDead(s, ids[..|ids| - 1], id);
    }
  }

  /** A delivery report removes exactly the incarnations it lists, pending or dead, and changes no
      other record. */
  lemma DeliveredRemovesExactly(l: Limits, s: State, ids: seq<string>)
    requires Inv(l, s)
    ensures RemovedExactly(s, MarkDelivered(s, ids), ids)
  {
    hide Inv, MarkDelivered;
    var after := MarkDelivered(s, ids);
    forall k ensures (k in after.pending <==> k in s.pending && s.pending[k].deliveryId !in ids)
                     && (k in after.pending ==> after.pending[k] == s.pending[k]) {
      DeliveredSlot(l, s, ids, k);
    }
    forall id ensures (id in after.dead <==> id in s.dead && id !in ids)
                      && (id in after.dead ==> after.dead[id] == s.dead[id]) {
      DeliveredDead(s, ids, id);
    }
    MarkDeliveredSequence(s, ids);
  }

  lemma DeliveredSlot(l: Limits, s: State, ids: seq<string>, k: Slot)
    requires Inv(l, s)
    ensures k in MarkDelivered(s, ids).pending <==> k in s.pending && s.pending[k].deliveryId !in ids
    ensures k in MarkDelivered(s, ids).pending ==> MarkDelivered(s, ids).pending[k] == s.pending[k]
  {
    hide Inv, MarkDelivered;
    DeliveredOnlyForgets(s, ids, k);
    if k in MarkDelivered(s, ids).pending && s.pending[k].deliveryId in ids {
      DeliveredIsGone(l, s, ids, s.pending[k].deliveryId);
    }
  }

  ghost predicate RemovedExactly(before: State, after: State, ids: seq<string>) {
    && (forall k :: k in after.pending <==> k in before.pending && before.pending[k].deliveryId !in ids)
    && (forall k :: k in after.pending ==> after.pending[k] == before.pending[k])
    && (forall id :: id in after.dead <==> id in before.dead && id !in ids)
    && (forall id :: id in after.dead ==> after.dead[id] == before.dead[id])
    && after.nextSequence == before.nextSequence
  }

  /** One attempt more, the new reason or the one already there, and everything else as it was. */
  predicate OneAttemptMore(before: Deadline, after: Deadline, error: Option<string>) {
    && after.attempts == before.attempts + 1
    && after.lastError == (if error.None? then before.lastError else error)
    && after.deliveryId == before.deliveryId && after.slot == before.slot && after.dueAt == before.dueAt
    && after.payload == before.payload && after.sequence == before.sequence
  }

  /** The incarnation stays pending with one attempt more, or is a dead letter with as many attempts
      as the ceiling allows, if it had one left. */
  ghost predicate AttemptCounted(l: Limits, before: State, after: State, slot: Slot, error: Option<string>)
    requires slot in before.pending
  {
    var was := before.pending[slot];
    if was.attempts + 1 == l.maxDeliveryAttempts then
      slot !in after.pending && was.deliveryId in after.dead
      && OneAttemptMore(was, after.dead[was.deliveryId], error)
    else
      was.attempts + 1 < l.maxDeliveryAttempts && was.deliveryId !in after.dead
      && slot in after.pending && OneAttemptMore(was, after.pending[slot], error)
  }

  /** A failure report counts one attempt of the incarnation it names and changes nothing else. */
  ghost predicate FailureCounted(l: Limits, before: State, after: State, slot: Slot, error: Option<string>)
    requires slot in before.pending
  {
    && AttemptCounted(l, before, after, slot, error)
    && OthersKept(before, after, slot) && after.nextSequence == before.nextSequence
    && after.dead - {before.pending[slot].deliveryId} == before.dead
  }

  lemma RetryIsCounted(l: Limits, s: State, slot: Slot, error: Option<string>)
    requires slot in s.pending && s.pending[slot].deliveryId !in s.dead
    requires s.pending[slot].attempts + 1 < l.maxDeliveryAttempts
    ensures FailureCounted(l, s, s.(pending := s.pending[slot := Failed(s.pending[slot], error)]), slot, error)
  {
    assert s.dead - {s.pending[slot].deliveryId} == s.dead;
  }

  lemma DeathIsCounted(l: Limits, s: State, slot: Slot, error: Option<string>)
    requires slot in s.pending && s.pending[slot].deliveryId !in s.dead
    requires s.pending[slot].attempts + 1 == l.maxDeliveryAttempts
    ensures var was := s.pending[slot];
            var died := s.(pending := s.pending - {slot}, dead := s.dead[was.deliveryId := Failed(was, error)]);
            FailureCounted(l, s, died, slot, error)
  {
    var was := s.pending[slot];
    assert s.dead[was.deliveryId := Failed(was, error)] - {was.deliveryId} == s.dead;
  }

  lemma FailureIsCounted(l: Limits, s: State, slot: Slot, error: Option<string>)
    requires Inv(l, s) && slot in s.pending
    ensures s.pending[slot].attempts < l.maxDeliveryAttempts
    ensures FailureCounted(l, s, MarkFailed(l, s, s.pending[slot].deliveryId, error), slot, error)
  {
    hide Find, FailureCounted;
    IdNamesOne(l, s, slot);
    assert PendingOk(l, s.nextSequence, slot, s.pending[slot]);
    hide Inv;
    if s.pending[slot].attempts + 1 == l.maxDeliveryAttempts {
      DeathIsCounted(l, s, slot, error);
    } else {
      RetryIsCounted(l, s, slot, error);
    }
  }
}
