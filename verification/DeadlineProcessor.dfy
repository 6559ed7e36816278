/** The deadline store with its maps updated in place, and one pass of the processor over it. */
module DeadlineProcessors {
  import opened Common
  import opened Deadlines

  // ---- what is due ----

  /** Delivery order: due time, then scheduling order. */
  predicate Before(a: Deadline, b: Deadline) {
    a.dueAt < b.dueAt || (a.dueAt == b.dueAt && a.sequence < b.sequence)
  }

  ghost predicate Ordered(ds: seq<Deadline>) {
    forall i, j :: 0 <= i < j < |ds| ==> Before(ds[i], ds[j])
  }

  predicate IsDue(s: State, now: int, k: Slot) {
    k in s.pending && s.pending[k].dueAt <= now
  }

  predicate Stored(s: State, d: Deadline) {
    d.slot in s.pending && s.pending[d.slot] == d
  }

  /** The first due deadlines in delivery order, at most `limit`, missing one only when full. */
  ghost predicate IsDuePage(s: State, now: int, limit: nat, page: seq<Deadline>) {
    && Ordered(page) && |page| <= limit
    && (forall i :: 0 <= i < |page| ==> Stored(s, page[i]) && page[i].dueAt <= now)
    && forall k :: IsDue(s, now, k) ==>
         s.pending[k] in page || (|page| == limit && forall i :: 0 <= i < |page| ==> Before(page[i], s.pending[k]))
  }

  function InsertDue(d: Deadline, sorted: seq<Deadline>): seq<Deadline> {
    if |sorted| == 0 then [d]
    else if Before(d, sorted[0]) then [d] + sorted
    else [sorted[0]] + InsertDue(d, sorted[1..])
  }

  lemma {:induction false} InsertDueSorts(d: Deadline, sorted: seq<Deadline>)
    requires Ordered(sorted) && forall i :: 0 <= i < |sorted| ==> sorted[i].sequence != d.sequence
    ensures Ordered(InsertDue(d, sorted))
    ensures forall x :: x in InsertDue(d, sorted) <==> x == d || x in sorted
  {
    if |sorted| > 0 && !Before(d, sorted[0]) {
      InsertDueSorts(d, sorted[1..]);
      var rest := InsertDue(d, sorted[1..]);
      assert sorted == [sorted[0]] + sorted[1..];
      forall i | 0 <= i < |rest| ensures Before(sorted[0], rest[i]) {
        assert rest[i] in rest;
      }
    }
  }

  class InMemoryDeadlineStore {
    var pending: map<Slot, Deadline>
    var dead: map<string, Deadline>
    var nextSequence: nat
    const limits: Limits

    function AsState(): State
      reads this
    {
      State(pending, dead, nextSequence)
    }

    ghost predicate Valid()
      reads this
    {
      Inv(limits, AsState())
    }

    constructor (limits: Limits)
      requires 0 < limits.maxDeliveryAttempts && (limits.maxRecords.Some? ==> 0 < limits.maxRecords.value)
      ensures Valid() && AsState() == EMPTY && this.limits == limits
    {
      this.limits := limits;
      this.pending := map[];
      this.dead := map[];
      this.nextSequence := 0;
    }

    method Schedule(slot: Slot, dueAt: int, payload: string) returns (accepted: bool)
      requires Valid()
      modifies this
      ensures Valid()
      ensures var r := Deadlines.Schedule(limits, old(AsState()), slot, dueAt, payload);
              accepted == r.Some? && AsState() == if accepted then r.value else old(AsState())
      ensures !accepted <==> slot !in old(pending) && limits.maxRecords == Some(|old(pending)| + |old(dead)|)
      ensures accepted ==> Holds(AsState(), slot, dueAt, payload, old(nextSequence))
                           && !Names(old(AsState()), DeliveryId(old(nextSequence)))
                           && OthersKept(old(AsState()), AsState(), slot) && dead == old(dead)
    {
      hide Inv, DeliveryId, Names, OthersKept, Holds;
      ScheduleHolds(limits, AsState(), slot, dueAt, payload);
      if slot !in pending && limits.maxRecords.Some? && |pending| + |dead| >= limits.maxRecords.value {
        return false;
      }
      ScheduleKeepsInv(limits, AsState(), slot, dueAt, payload);
      var sequence := nextSequence;
      nextSequence := nextSequence + 1;
      pending := pending[slot := Deadline(DeliveryId(sequence), slot, dueAt, payload, 0, sequence, None)];
      return true;
    }

    method Cancel(slot: Slot)
      requires Valid()
      modifies this`pending
      ensures Valid() && AsState() == Deadlines.Cancel(old(AsState()), slot)
      ensures slot !in pending && OthersKept(old(AsState()), AsState(), slot)
    {
      CancelKeepsInv(limits, AsState(), slot);
      pending := pending - {slot};
    }

    /** None is the error of a negative limit. */
    method Due(now: int, limit: int) returns (page: Option<seq<Deadline>>)
      requires Valid()
      ensures page.None? <==> limit < 0
      ensures page.Some? ==> IsDuePage(AsState(), now, limit, page.value)
    {
      if limit < 0 {
        return None;
      }
      if limit == 0 {
        return Some([]);
      }
      var sorted: seq<Deadline> := [];
      var rest := pending.Keys;
      while rest != {}
        invariant rest <= pending.Keys
        invariant Ordered(sorted)
        invariant forall x :: x in sorted ==> Stored(AsState(), x) && x.dueAt <= now && x.slot !in rest
        invariant forall k :: IsDue(AsState(), now, k) && k !in rest ==> pending[k] in sorted
        decreases |rest|
      {
        var k :| k in rest;
        rest := rest - {k};
        if pending[k].dueAt <= now {
          InsertDueSorts(pending[k], sorted);
          sorted := InsertDue(pending[k], sorted);
        }
      }
      PageOfSorted(AsState(), now, limit, sorted);
      return Some(if limit < |sorted| then sorted[..limit] else sorted);
    }

    /** The slot of the pending incarnation with that id, by search. */
    method FindSlot(id: string, ghost s: State) returns (slot: Option<Slot>)
      requires Inv(limits, s) && s.pending == pending
      ensures slot == Find(pending, id)
    {
      var rest := pending.Keys;
      while rest != {}
        invariant rest <= pending.Keys
        invariant forall k :: k in pending && k !in rest ==> pending[k].deliveryId != id
        decreases |rest|
      {
        var k :| k in rest;
        if pending[k].deliveryId == id {
          IdNamesOne(limits, s, k);
          return Some(k);
        }
        rest := rest - {k};
      }
      return None;
    }

    method MarkDelivered(deliveryIds: seq<string>)
      requires Valid()
      modifies this`pending, this`dead
      ensures Valid() && AsState() == Deadlines.MarkDelivered(old(AsState()), deliveryIds)
      ensures RemovedExactly(old(AsState()), AsState(), deliveryIds)
    {
      hide Inv, Deadlines.MarkOneDelivered, RemovedExactly;
      DeliveredRemovesExactly(limits, AsState(), deliveryIds);
      for i := 0 to |deliveryIds|
        invariant Valid()
        invariant AsState() == Deadlines.MarkDelivered(old(AsState()), deliveryIds[..i])
      {
        assert deliveryIds[..i + 1][..i] == deliveryIds[..i];
        MarkOneDelivered(deliveryIds[i]);
      }
      assert deliveryIds[..|deliveryIds|] == deliveryIds;
    }

    method MarkOneDelivered(id: string)
      requires Valid()
      modifies this`pending, this`dead
      ensures Valid() && AsState() == Deadlines.MarkOneDelivered(old(AsState()), id)
    {
      hide Inv, Find;
      ghost var before := AsState();
      MarkOneDeliveredKeepsInv(limits, before, id);
      dead := dead - {id};
      var slot := FindSlot(id, before);
      if slot.Some? {
        pending := pending - {slot.value};
      }
    }

    /** The result is the dead letter when the ceiling is reached. */
    method MarkFailed(deliveryId: string, error: Option<string>) returns (deadLetter: Option<Deadline>)
      requires Valid()
      modifies this`pending, this`dead
      ensures Valid() && AsState() == Deadlines.MarkFailed(limits, old(AsState()), deliveryId, error)
      ensures deadLetter.Some? <==> deliveryId in dead && deliveryId !in old(dead)
      ensures deadLetter.Some? ==> deadLetter.value == dead[deliveryId]
      ensures (forall k :: k in old(pending) ==> old(pending)[k].deliveryId != deliveryId) ==>
                AsState() == old(AsState())
      ensures forall k :: k in old(pending) && old(pending)[k].deliveryId == deliveryId ==>
                FailureCounted(limits, old(AsState()), AsState(), k, error)
    {
      hide Inv, Find, FailureCounted;
      forall k | k in pending && pending[k].deliveryId == deliveryId
        ensures FailureCounted(limits, AsState(), Deadlines.MarkFailed(limits, AsState(), deliveryId, error), k,
                               error) {
        FailureIsCounted(limits, AsState(), k, error);
      }
      ghost var before := AsState();
      MarkFailedKeepsInv(limits, before, deliveryId, error);
      var slot := FindSlot(deliveryId, before);
      if slot.None? {
        return None;
      }
      IdNamesOne(limits, before, slot.value);
      var failed := Failed(pending[slot.value], error);
      if failed.attempts >= limits.maxDeliveryAttempts {
        pending := pending - {slot.value};
        dead := dead[deliveryId := failed];
        return Some(failed);
      }
      pending := pending[slot.value := failed];
      return None;
    }
  }

  lemma PageOfSorted(s: State, now: int, limit: nat, sorted: seq<Deadline>)
    requires Ordered(sorted)
    requires forall x :: x in sorted ==> Stored(s, x) && x.dueAt <= now
    requires forall k :: IsDue(s, now, k) ==> s.pending[k] in sorted
    ensures IsDuePage(s, now, limit, if limit < |sorted| then sorted[..limit] else sorted)
  {
    var page := if limit < |sorted| then sorted[..limit] else sorted;
    forall k | IsDue(s, now, k) && s.pending[k] !in page
      ensures |page| == limit && forall i :: 0 <= i < |page| ==> Before(page[i], s.pending[k]) {
      var j :| 0 <= j < |sorted| && sorted[j] == s.pending[k];
      assert page == sorted[..|page|];
      assert sorted[j] !in page;
      assert j >= |page|;
    }
  }

  // ---- one pass ----

  datatype HandlerOutcome = Handled | FailsTransient | FailsPermanent

  /** What goes wrong in one batch: per deadline how its handler ends, how the report of a failure
      fares and which error it carries, and how the acknowledgement fares. */
  datatype Weather = Weather(
    handler: string -> HandlerOutcome,
    report: string -> StorageCall,
    error: string -> Option<string>,
    ack: StorageCall)

  ghost predicate Fair(w: Weather) {
    w.ack.Succeeds? && forall id :: w.handler(id).Handled?
  }

  /** Every permanent failure of the page counted as one attempt, unless its report was lost. */
  ghost function AfterPage(l: Limits, s: State, page: seq<Deadline>, w: Weather): State {
    if |page| == 0 then s else AfterOne(l, AfterPage(l, s, page[..|page| - 1], w), page[|page| - 1].deliveryId, w)
  }

  ghost function AfterOne(l: Limits, s: State, id: string, w: Weather): State {
    if w.handler(id).FailsPermanent? && !w.report(id).FailsUnapplied? then MarkFailed(l, s, id, w.error(id)) else s
  }

  lemma OneMoreOfPage(l: Limits, s: State, page: seq<Deadline>, w: Weather, i: nat)
    requires i < |page|
    ensures AfterPage(l, s, page[..i + 1], w) == AfterOne(l, AfterPage(l, s, page[..i], w), page[i].deliveryId, w)
    ensures HandledOf(page[..i + 1], w)
            == HandledOf(page[..i], w) + (if w.handler(page[i].deliveryId).Handled? then [page[i]] else [])
    ensures page[..i + 1] == page[..i] + [page[i]]
  {
    assert page[..i + 1][..i] == page[..i];
  }

  /** The deadlines of the page whose handler succeeds, in order. */
  function HandledOf(page: seq<Deadline>, w: Weather): seq<Deadline> {
    if |page| == 0 then [] else
    var before := HandledOf(page[..|page| - 1], w);
    if w.handler(page[|page| - 1].deliveryId).Handled? then before + [page[|page| - 1]] else before
  }

  /** The same incarnation, perhaps with more failed attempts. */
  predicate SameIncarnation(a: Deadline, b: Deadline) {
    a.deliveryId == b.deliveryId && a.sequence == b.sequence && a.slot == b.slot
    && a.dueAt == b.dueAt && a.payload == b.payload
  }

  /** What became of one slot: still there, or gone because it was handled or died. */
  ghost predicate SlotProgress(before: State, after: State, now: int, handled: seq<Deadline>, k: Slot)
    requires k in before.pending
  {
    var d := before.pending[k];
    if k in after.pending then SameIncarnation(d, after.pending[k]) && (d.dueAt > now ==> after.pending[k] == d)
    else d.dueAt <= now && (d.deliveryId in after.dead || exists h :: h in handled && h.deliveryId == d.deliveryId)
  }

  /** Nothing is scheduled or forgotten by the processor; a pending deadline leaves only when due
      and either handled or dead, and one that is not due is untouched. */
  ghost predicate Progress(before: State, after: State, now: int, handled: seq<Deadline>) {
    && after.nextSequence == before.nextSequence
    && (forall k :: k in after.pending ==> k in before.pending)
    && (forall k :: k in before.pending ==> SlotProgress(before, after, now, handled, k))
    && (forall id :: id in before.dead ==> id in after.dead)
  }

  lemma ProgressNothing(s: State, now: int, handled: seq<Deadline>)
    ensures Progress(s, s, now, handled)
  {
  }

  lemma ProgressThrough(a: State, b: State, c: State, now: int, handled: seq<Deadline>, more: seq<Deadline>)
    requires Progress(a, b, now, handled) && Progress(b, c, now, more)
    ensures Progress(a, c, now, handled + more)
  {
    forall k | k in a.pending ensures SlotProgress(a, c, now, handled + more, k) {
      assert SlotProgress(a, b, now, handled, k);
      if k in b.pending {
        assert SlotProgress(b, c, now, more, k);
      }
    }
  }

  lemma ProgressAgain(a: State, b: State, c: State, now: int)
    requires Progress(a, b, now, []) && Progress(b, c, now, [])
    ensures Progress(a, c, now, [])
  {
    ProgressThrough(a, b, c, now, [], []);
    var none: seq<Deadline> := [];
    assert none + none == none;
  }

  /** The slots of the listed deadlines are gone; nothing else changed. */
  ghost predicate Removed(before: State, after: State, ds: seq<Deadline>) {
    && after.dead == before.dead && after.nextSequence == before.nextSequence
    && (forall k :: k in after.pending <==> k in before.pending && before.pending[k] !in ds)
    && (forall k :: k in after.pending ==> after.pending[k] == before.pending[k])
  }

  function IdsOf(ds: seq<Deadline>): (ids: seq<string>)
    ensures |ids| == |ds| && forall i :: 0 <= i < |ds| ==> ids[i] == ds[i].deliveryId
  {
    seq(|ds|, i requires 0 <= i < |ds| => ds[i].deliveryId)
  }

  lemma LastIsNew(ds: seq<Deadline>, n: nat)
    requires Ordered(ds) && n == |ds| - 1
    ensures ds[n] !in ds[..n] && Ordered(ds[..n])
  {
  }

  lemma StillStored(s: State, mid: State, ds: seq<Deadline>, d: Deadline)
    requires Removed(s, mid, ds) && Stored(s, d) && d !in ds
    ensures Stored(mid, d)
  {
  }

  lemma SlotsMatch(l: Limits, s: State)
    requires Inv(l, s)
    ensures forall k :: k in s.pending ==> s.pending[k].slot == k
  {
    forall k | k in s.pending ensures s.pending[k].slot == k {
      assert PendingOk(l, s.nextSequence, k, s.pending[k]);
    }
  }

  /** Acknowledging pending deadlines removes exactly them. */
  lemma {:induction false} AckRemoves(l: Limits, s: State, ds: seq<Deadline>)
    requires Inv(l, s) && forall i :: 0 <= i < |ds| ==> Stored(s, ds[i])
    requires Ordered(ds)
    ensures Removed(s, MarkDelivered(s, IdsOf(ds)), ds) && Inv(l, MarkDelivered(s, IdsOf(ds)))
  {
    hide Inv, Find, MarkOneDelivered;
    MarkDeliveredKeepsInv(l, s, IdsOf(ds));
    if |ds| > 0 {
      hide Removed, Ordered, Stored;
      var n := |ds| - 1;
      assert IdsOf(ds)[..n] == IdsOf(ds[..n]);
      LastIsNew(ds, n);
      AckRemoves(l, s, ds[..n]);
      AckOneMore(l, s, MarkDelivered(s, IdsOf(ds[..n])), ds, n);
    }
  }

  lemma AckOneMore(l: Limits, s: State, mid: State, ds: seq<Deadline>, n: nat)
    requires Inv(l, s) && Inv(l, mid) && n == |ds| - 1
    requires Removed(s, mid, ds[..n]) && Stored(s, ds[n]) && ds[n] !in ds[..n]
    ensures Removed(s, MarkOneDelivered(mid, ds[n].deliveryId), ds)
  {
    hide Inv, Find, MarkOneDelivered;
    StillStored(s, mid, ds[..n], ds[n]);
    IdNamesOne(l, mid, ds[n].slot);
    SlotsMatch(l, s);
    RemovedOneMore(s, mid, ds, n);
  }

  lemma RemovedOneMore(s: State, mid: State, ds: seq<Deadline>, n: nat)
    requires n == |ds| - 1 && Removed(s, mid, ds[..n]) && Stored(s, ds[n]) && Stored(mid, ds[n])
    requires Find(mid.pending, ds[n].deliveryId) == Some(ds[n].slot) && ds[n].deliveryId !in mid.dead
    requires forall k :: k in s.pending ==> s.pending[k].slot == k
    ensures Removed(s, MarkOneDelivered(mid, ds[n].deliveryId), ds)
  {
    assert ds == ds[..n] + [ds[n]];
    assert mid.dead - {ds[n].deliveryId} == mid.dead;
  }

  lemma RemovedIsProgress(before: State, after: State, now: int, ds: seq<Deadline>)
    requires Removed(before, after, ds) && forall i :: 0 <= i < |ds| ==> ds[i].dueAt <= now
    ensures Progress(before, after, now, ds)
  {
  }

  lemma RetryIsProgress(s: State, now: int, d: Deadline, failed: Deadline)
    requires Stored(s, d) && d.dueAt <= now && SameIncarnation(d, failed)
    ensures Progress(s, s.(pending := s.pending[d.slot := failed]), now, [])
  {
  }

  lemma DeathIsProgress(s: State, now: int, d: Deadline, failed: Deadline)
    requires Stored(s, d) && d.dueAt <= now
    ensures Progress(s, s.(pending := s.pending - {d.slot}, dead := s.dead[d.deliveryId := failed]), now, [])
  {
  }

  lemma FailureIsProgress(l: Limits, s: State, now: int, d: Deadline, error: Option<string>)
    requires Inv(l, s) && Stored(s, d) && d.dueAt <= now
    ensures var s' := MarkFailed(l, s, d.deliveryId, error);
            && Progress(s, s', now, []) && Inv(l, s')
            && (forall k :: k in s.pending && k != d.slot ==> k in s'.pending && s'.pending[k] == s.pending[k])
  {
    MarkFailedKeepsInv(l, s, d.deliveryId, error);
    IdNamesOne(l, s, d.slot);
    RetryIsProgress(s, now, d, Failed(d, error));
    DeathIsProgress(s, now, d, Failed(d, error));
    hide Inv, Find, Progress;
  }

  // ---- what a batch does to each deadline ----

  predicate CountsFailure(w: Weather, id: string) {
    w.handler(id).FailsPermanent? && !w.report(id).FailsUnapplied?
  }

  predicate IsUntouched(before: State, after: State, k: Slot) {
    k in before.pending && k in after.pending && after.pending[k] == before.pending[k]
  }

  predicate IsGone(before: State, after: State, k: Slot)
    requires k in before.pending
  {
    k !in after.pending && before.pending[k].deliveryId !in after.dead
  }

  /** What becomes of a deadline in a batch: acknowledged if its handler succeeded and the
      acknowledgement was not lost, one attempt more if it failed for good and the report was not
      lost, and otherwise as before. */
  ghost predicate DeadlineHandled(l: Limits, before: State, after: State, k: Slot, w: Weather)
    requires k in before.pending
  {
    var id := before.pending[k].deliveryId;
    if w.handler(id).Handled? && !w.ack.FailsUnapplied? then IsGone(before, after, k)
    else if CountsFailure(w, id) then AttemptCounted(l, before, after, k, w.error(id))
    else IsUntouched(before, after, k)
  }

  /** After batches that completed with `done`, and one with `page`: the first are gone, of the page
      each deadline fared as its handler and the calls decide, and every other one is as before. */
  ghost predicate BatchHandled(l: Limits, before: State, after: State, done: seq<Deadline>, page: seq<Deadline>,
                               w: Weather) {
    && PendingHandled(l, before, after, done, page, w)
    && DeadHandled(before, after, page, w)
  }

  ghost predicate PendingHandled(l: Limits, before: State, after: State, done: seq<Deadline>, page: seq<Deadline>,
                                 w: Weather) {
    && (forall k :: k in before.pending ==>
          if before.pending[k] in done then IsGone(before, after, k)
          else if before.pending[k] in page then DeadlineHandled(l, before, after, k, w)
          else IsUntouched(before, after, k))
    && (forall k :: k in after.pending ==> k in before.pending)
  }

  /** No dead letter is lost or changed, and only counted failures of the page join them. */
  ghost predicate DeadHandled(before: State, after: State, page: seq<Deadline>, w: Weather) {
    && (forall id :: id in before.dead ==> id in after.dead && after.dead[id] == before.dead[id])
    && (forall id :: id in after.dead && id !in before.dead ==> CountsFailure(w, id) && id in IdsOf(page))
  }

  /** The listed deadlines are those of the page whose handler succeeded, in order. */
  ghost predicate AreHandled(page: seq<Deadline>, w: Weather, delivered: seq<Deadline>) {
    && Ordered(delivered)
    && forall x :: x in delivered <==> x in page && w.handler(x.deliveryId).Handled?
  }

  lemma {:induction false} HandledOfPage(page: seq<Deadline>, w: Weather)
    requires Ordered(page)
    ensures AreHandled(page, w, HandledOf(page, w))
  {
    if |page| > 0 {
      var n := |page| - 1;
      LastIsNew(page, n);
      HandledOfPage(page[..n], w);
      assert page == page[..n] + [page[n]];
      forall x | x in page[..n] ensures Before(x, page[n]) {
      }
    }
  }

  /** Distinct pending slots have distinct ids, and no pending one has a dead letter. */
  ghost predicate OwnIds(s: State) {
    && (forall j, k :: j in s.pending && k in s.pending && j != k ==>
          s.pending[j].deliveryId != s.pending[k].deliveryId)
    && (forall k :: k in s.pending ==> s.pending[k].slot == k && s.pending[k].deliveryId !in s.dead)
  }

  lemma IdsAreOwn(l: Limits, s: State)
    requires Inv(l, s)
    ensures OwnIds(s)
  {
    SlotsMatch(l, s);
    forall k | k in s.pending
      ensures Find(s.pending, s.pending[k].deliveryId) == Some(k) && s.pending[k].deliveryId !in s.dead {
      IdNamesOne(l, s, k);
    }
    hide Inv, Find;
  }

  lemma OneMoreIsHandled(l: Limits, s: State, mid: State, after: State, page: seq<Deadline>, n: nat, w: Weather)
    requires n < |page| && Stored(s, page[n]) && page[n] !in page[..n] && OwnIds(s)
    requires PendingHandled(l, s, mid, [], page[..n], w) && w.ack.FailsUnapplied?
    requires var k := page[n].slot;
             if CountsFailure(w, page[n].deliveryId)
             then k in mid.pending && FailureCounted(l, mid, after, k, w.error(page[n].deliveryId))
             else after == mid
    ensures PendingHandled(l, s, after, [], page[..n + 1], w)
  {
    assert page[..n + 1] == page[..n] + [page[n]];
    var k0 := page[n].slot;
    assert IsUntouched(s, mid, k0);
    hide OneAttemptMore;
    forall k | k in s.pending
      ensures if s.pending[k] in page[..n + 1] then DeadlineHandled(l, s, after, k, w) else IsUntouched(s, after, k) {
      if k != k0 {
        assert s.pending[k] != page[n];
        assert s.pending[k].deliveryId != page[n].deliveryId;
        assert k in after.pending <==> k in mid.pending;
      }
    }
  }

  lemma OneMoreDead(s: State, mid: State, after: State, page: seq<Deadline>, n: nat, w: Weather)
    requires n < |page| && page[n].deliveryId !in s.dead && DeadHandled(s, mid, page[..n], w)
    requires if CountsFailure(w, page[n].deliveryId) then after.dead - {page[n].deliveryId} == mid.dead
             else after.dead == mid.dead
    ensures DeadHandled(s, after, page[..n + 1], w)
  {
    var id0 := page[n].deliveryId;
    forall id | id in IdsOf(page[..n]) ensures id in IdsOf(page[..n + 1]) {
      var i :| 0 <= i < n && page[i].deliveryId == id;
      assert IdsOf(page[..n + 1])[i] == id;
    }
    assert IdsOf(page[..n + 1])[n] == id0;
    forall id | id in s.dead ensures id in after.dead && after.dead[id] == s.dead[id] {
      assert id in mid.dead && mid.dead[id] == s.dead[id];
      assert CountsFailure(w, id0) ==> id in after.dead - {id0};
    }
    forall id | id in after.dead && id !in s.dead ensures CountsFailure(w, id) && id in IdsOf(page[..n + 1]) {
      if CountsFailure(w, id0) && id != id0 {
        assert id in after.dead - {id0};
      }
    }
  }

  lemma {:induction false} PageIsHandled(l: Limits, s: State, page: seq<Deadline>, w: Weather)
    requires Inv(l, s) && Ordered(page) && (forall i :: 0 <= i < |page| ==> Stored(s, page[i]))
    requires w.ack.FailsUnapplied?
    ensures Inv(l, AfterPage(l, s, page, w))
    ensures BatchHandled(l, s, AfterPage(l, s, page, w), [], page, w)
  {
    hide Inv, Ordered, PendingHandled, DeadHandled, MarkFailed, FailureCounted;
    if |page| == 0 {
      NothingIsHandled(l, s, w);
    } else {
      var n := |page| - 1;
      var mid, d := AfterPage(l, s, page[..n], w), page[n];
      LastIsNew(page, n);
      PageIsHandled(l, s, page[..n], w);
      assert Stored(s, d);
      StillPending(l, s, mid, page[..n], d, w);
      MarkFailedKeepsInv(l, mid, d.deliveryId, w.error(d.deliveryId));
      FailureIsCounted(l, mid, d.slot, w.error(d.deliveryId));
      IdsAreOwn(l, s);
      assert page[..n + 1] == page;
      OneMoreIsHandled(l, s, mid, AfterPage(l, s, page, w), page, n, w);
      CountedDead(l, mid, AfterPage(l, s, page, w), d, w);
      OneMoreDead(s, mid, AfterPage(l, s, page, w), page, n, w);
    }
  }

  lemma CountedDead(l: Limits, mid: State, after: State, d: Deadline, w: Weather)
    requires Stored(mid, d)
    requires if CountsFailure(w, d.deliveryId) then FailureCounted(l, mid, after, d.slot, w.error(d.deliveryId))
             else after == mid
    ensures if CountsFailure(w, d.deliveryId) then after.dead - {d.deliveryId} == mid.dead else after.dead == mid.dead
  {
  }

  lemma NothingIsHandled(l: Limits, s: State, w: Weather)
    ensures PendingHandled(l, s, s, [], [], w) && DeadHandled(s, s, [], w)
  {
  }

  lemma StillPending(l: Limits, s: State, mid: State, before: seq<Deadline>, d: Deadline, w: Weather)
    requires PendingHandled(l, s, mid, [], before, w) && Stored(s, d) && d !in before
    ensures Stored(mid, d)
  {
    assert IsUntouched(s, mid, d.slot);
  }

  lemma IdListed(ds: seq<Deadline>, id: string)
    ensures id in IdsOf(ds) <==> exists d :: d in ds && d.deliveryId == id
  {
    if d :| d in ds && d.deliveryId == id {
      var i :| 0 <= i < |ds| && ds[i] == d;
      assert IdsOf(ds)[i] == id;
    }
  }

  /** Acknowledging what was handled removes exactly that. */
  lemma AckIsHandled(l: Limits, s: State, mid: State, after: State, page: seq<Deadline>, w: Weather,
                     delivered: seq<Deadline>)
    requires OwnIds(s) && AreHandled(page, w, delivered) && (forall x :: x in page ==> Stored(s, x))
    requires BatchHandled(l, s, mid, [], page, w.(ack := FailsUnapplied))
    requires RemovedExactly(mid, after, IdsOf(delivered)) && !w.ack.FailsUnapplied?
    ensures BatchHandled(l, s, after, [], page, w)
  {
    forall id ensures id in IdsOf(delivered) <==> exists d :: d in delivered && d.deliveryId == id {
      IdListed(delivered, id);
    }
    AckedPending(l, s, mid, after, page, w, delivered);
    AckedDead(l, s, mid, after, page, w, delivered);
  }

  lemma AckedPending(l: Limits, s: State, mid: State, after: State, page: seq<Deadline>, w: Weather,
                     delivered: seq<Deadline>)
    requires OwnIds(s) && AreHandled(page, w, delivered) && (forall x :: x in page ==> Stored(s, x))
    requires forall id :: id in IdsOf(delivered) <==> exists d :: d in delivered && d.deliveryId == id
    requires PendingHandled(l, s, mid, [], page, w.(ack := FailsUnapplied))
    requires RemovedExactly(mid, after, IdsOf(delivered)) && !w.ack.FailsUnapplied?
    ensures PendingHandled(l, s, after, [], page, w)
  {
    hide IdsOf, Ordered, RemovedExactly;
    forall k | k in s.pending
      ensures if s.pending[k] in page then DeadlineHandled(l, s, after, k, w) else IsUntouched(s, after, k) {
      var id := s.pending[k].deliveryId;
      forall d | d in delivered && d.deliveryId == id ensures d == s.pending[k] {
        assert Stored(s, d);
        assert d.slot == k;
      }
      assert s.pending[k] in delivered <==> s.pending[k] in page && w.handler(id).Handled?;
      hide OwnIds, AreHandled;
      RemovedAt(mid, after, k, id, IdsOf(delivered));
      AckedSlot(l, s, mid, after, k, w, s.pending[k] in page);
    }
    assert forall k :: k in after.pending ==> k in s.pending by { RemovedSlots(mid, after, IdsOf(delivered)); }
  }

  lemma RemovedSlots(mid: State, after: State, ids: seq<string>)
    requires RemovedExactly(mid, after, ids)
    ensures forall k :: k in after.pending ==> k in mid.pending
  {
  }

  /** What a delivery report does to one slot that holds this incarnation, if it is still pending. */
  lemma RemovedAt(mid: State, after: State, k: Slot, id: string, ids: seq<string>)
    requires RemovedExactly(mid, after, ids) && (k in mid.pending ==> mid.pending[k].deliveryId == id)
    ensures id in ids ==> k !in after.pending && id !in after.dead
    ensures id !in ids ==> (k in after.pending <==> k in mid.pending) && (id in after.dead <==> id in mid.dead)
    ensures k in after.pending ==> after.pending[k] == mid.pending[k]
    ensures id in after.dead ==> id in mid.dead && after.dead[id] == mid.dead[id]
  {
  }

  lemma AckedSlot(l: Limits, s: State, mid: State, after: State, k: Slot, w: Weather, ofPage: bool)
    requires k in s.pending && !w.ack.FailsUnapplied?
    requires if ofPage then DeadlineHandled(l, s, mid, k, w.(ack := FailsUnapplied)) else IsUntouched(s, mid, k)
    requires var id := s.pending[k].deliveryId;
             && (k in after.pending ==> k in mid.pending && after.pending[k] == mid.pending[k])
             && (id in after.dead ==> id in mid.dead && after.dead[id] == mid.dead[id])
             && if ofPage && w.handler(id).Handled? then k !in after.pending && id !in after.dead
                else (k in after.pending <==> k in mid.pending) && (id in after.dead <==> id in mid.dead)
    ensures if ofPage then DeadlineHandled(l, s, after, k, w) else IsUntouched(s, after, k)
  {
    hide OneAttemptMore;
  }

  lemma AckedDead(l: Limits, s: State, mid: State, after: State, page: seq<Deadline>, w: Weather,
                  delivered: seq<Deadline>)
    requires OwnIds(s) && AreHandled(page, w, delivered) && (forall x :: x in page ==> Stored(s, x))
    requires forall id :: id in IdsOf(delivered) <==> exists d :: d in delivered && d.deliveryId == id
    requires DeadHandled(s, mid, page, w.(ack := FailsUnapplied))
    requires RemovedExactly(mid, after, IdsOf(delivered))
    ensures DeadHandled(s, after, page, w)
  {
    hide IdsOf, Ordered;
    forall d | d in delivered ensures d.deliveryId !in s.dead {
      assert Stored(s, d);
    }
  }

  lemma NoneHandled(l: Limits, s: State, mid: State, page: seq<Deadline>, w: Weather)
    requires AreHandled(page, w, []) && BatchHandled(l, s, mid, [], page, w.(ack := FailsUnapplied))
    ensures BatchHandled(l, s, mid, [], page, w)
  {
    forall k | k in s.pending && s.pending[k] in page ensures DeadlineHandled(l, s, mid, k, w) {
      assert s.pending[k] !in [];
    }
  }

  /** A batch after others that only removed what they had handled. */
  lemma LaterBatchHandled(l: Limits, s: State, mid: State, after: State, done: seq<Deadline>, page: seq<Deadline>,
                          w: Weather)
    requires OwnIds(s) && Removed(s, mid, done) && BatchHandled(l, mid, after, [], page, w)
    requires (forall x :: x in done ==> Stored(s, x)) && (forall x :: x in page ==> Stored(mid, x))
    ensures BatchHandled(l, s, after, done, page, w)
  {
    forall k | k in s.pending && s.pending[k] in done ensures IsGone(s, after, k) {
      DoneIsGone(l, s, mid, after, done, page, w, k);
    }
    hide OneAttemptMore, IdsOf, OwnIds, Stored, IsGone;
    forall k | k in s.pending && s.pending[k] !in done
      ensures if s.pending[k] in page then DeadlineHandled(l, s, after, k, w) else IsUntouched(s, after, k) {
      assert k in mid.pending && mid.pending[k] == s.pending[k];
      hide DeadlineHandled;
      assert if mid.pending[k] in page then DeadlineHandled(l, mid, after, k, w) else IsUntouched(mid, after, k);
      HandledAlike(l, s, mid, after, k, w);
    }
  }

  lemma HandledAlike(l: Limits, s: State, mid: State, after: State, k: Slot, w: Weather)
    requires k in s.pending && k in mid.pending && mid.pending[k] == s.pending[k]
    ensures DeadlineHandled(l, mid, after, k, w) ==> DeadlineHandled(l, s, after, k, w)
    ensures IsUntouched(mid, after, k) ==> IsUntouched(s, after, k)
  {
    hide OneAttemptMore;
  }

  lemma DoneIsGone(l: Limits, s: State, mid: State, after: State, done: seq<Deadline>, page: seq<Deadline>,
                   w: Weather, k: Slot)
    requires OwnIds(s) && Removed(s, mid, done) && BatchHandled(l, mid, after, [], page, w)
    requires (forall x :: x in page ==> Stored(mid, x)) && k in s.pending && s.pending[k] in done
    ensures IsGone(s, after, k)
  {
    hide PendingHandled;
    assert k !in after.pending by { OnlyPending(l, mid, after, page, w); }
    var id := s.pending[k].deliveryId;
    IdListed(page, id);
    forall d | d in page ensures d.deliveryId != id {
      assert Stored(mid, d) && d.slot != k;
    }
    hide IdsOf;
  }

  lemma OnlyPending(l: Limits, mid: State, after: State, page: seq<Deadline>, w: Weather)
    requires PendingHandled(l, mid, after, [], page, w)
    ensures forall k :: k in after.pending ==> k in mid.pending
  {
  }

  // ---- the loop body ----

  /** After some of the page: handled ones and those still to come are stored as they were. */
  ghost predicate HalfWay(page: seq<Deadline>, i: nat, delivered: seq<Deadline>, after: State)
    requires i <= |page|
  {
    && (forall x :: x in delivered ==> x in page[..i] && Stored(after, x))
    && (forall j :: i <= j < |page| ==> Stored(after, page[j]))
    && Ordered(delivered)
    && (forall x, j :: x in delivered && i <= j < |page| ==> Before(x, page[j]))
  }

  lemma HalfWayStart(s: State, now: int, limit: nat, page: seq<Deadline>)
    requires IsDuePage(s, now, limit, page)
    ensures HalfWay(page, 0, [], s)
  {
  }

  lemma HalfWayOrdered(s: State, now: int, limit: nat, page: seq<Deadline>)
    requires IsDuePage(s, now, limit, page)
    ensures Ordered(page) && forall i :: 0 <= i < |page| ==> page[i].dueAt <= now
  {
  }

  lemma HalfWayHandled(page: seq<Deadline>, i: nat, delivered: seq<Deadline>, s: State)
    requires i < |page| && HalfWay(page, i, delivered, s) && Ordered(page)
    ensures HalfWay(page, i + 1, delivered + [page[i]], s)
  {
    assert page[..i + 1] == page[..i] + [page[i]];
    assert Stored(s, page[i]);
    forall k | 0 <= k < |delivered| ensures Before(delivered[k], page[i]) {
      assert delivered[k] in delivered;
    }
  }

  lemma HalfWayFailed(page: seq<Deadline>, i: nat, delivered: seq<Deadline>, s: State, s': State)
    requires i < |page| && HalfWay(page, i, delivered, s) && Ordered(page)
    requires forall k :: k in s.pending && k != page[i].slot ==> k in s'.pending && s'.pending[k] == s.pending[k]
    ensures HalfWay(page, i + 1, delivered, s')
  {
    assert page[..i + 1] == page[..i] + [page[i]];
    assert Stored(s, page[i]);
    forall x | x in delivered ensures Stored(s', x) {
      assert Stored(s, x) && Before(x, page[i]);
    }
    forall j | i + 1 <= j < |page| ensures Stored(s', page[j]) {
      assert Stored(s, page[j]) && Before(page[i], page[j]);
    }
  }

  lemma PageDoes(l: Limits, s: State, now: int, limit: nat, page: seq<Deadline>, w: Weather)
    requires Inv(l, s) && IsDuePage(s, now, limit, page)
    ensures BatchHandled(l, s, AfterPage(l, s, page, w), [], page, w.(ack := FailsUnapplied))
    ensures AreHandled(page, w, HandledOf(page, w))
  {
    hide Inv, AfterPage, BatchHandled, AreHandled, HandledOf, Ordered;
    PageIsHandled(l, s, page, w.(ack := FailsUnapplied));
    HandledOfPage(page, w);
    AfterPageIgnoresAck(l, s, page, w);
  }

  lemma {:induction false} AfterPageIgnoresAck(l: Limits, s: State, page: seq<Deadline>, w: Weather)
    ensures AfterPage(l, s, page, w.(ack := FailsUnapplied)) == AfterPage(l, s, page, w)
  {
    if |page| > 0 {
      AfterPageIgnoresAck(l, s, page[..|page| - 1], w);
    }
  }

  /** The acknowledgement after the handlers, if anything was handled. */
  lemma AckDoes(l: Limits, s: State, mid: State, now: int, limit: nat, page: seq<Deadline>, w: Weather,
                delivered: seq<Deadline>)
    requires Inv(l, s) && Inv(l, mid) && IsDuePage(s, now, limit, page) && AreHandled(page, w, delivered)
    requires BatchHandled(l, s, mid, [], page, w.(ack := FailsUnapplied))
    ensures |delivered| == 0 || w.ack.FailsUnapplied? ==> BatchHandled(l, s, mid, [], page, w)
    ensures !w.ack.FailsUnapplied? ==> BatchHandled(l, s, MarkDelivered(mid, IdsOf(delivered)), [], page, w)
  {
    hide Inv, AreHandled, BatchHandled, MarkDelivered, IdsOf, RemovedExactly;
    PageIsStored(s, now, limit, page);
    hide IsDuePage;
    IdsAreOwn(l, s);
    if |delivered| == 0 {
      NoneHandled(l, s, mid, page, w);
    }
    if w.ack.FailsUnapplied? {
      assert w.(ack := FailsUnapplied) == w;
    } else {
      DeliveredRemovesExactly(l, mid, IdsOf(delivered));
      AckIsHandled(l, s, mid, MarkDelivered(mid, IdsOf(delivered)), page, w, delivered);
    }
  }

  lemma PageIsStored(s: State, now: int, limit: nat, page: seq<Deadline>)
    requires IsDuePage(s, now, limit, page)
    ensures forall x :: x in page ==> Stored(s, x)
  {
  }

  lemma FailureStep(l: Limits, start: State, s: State, now: int, page: seq<Deadline>, i: nat,
                    delivered: seq<Deadline>, error: Option<string>)
    requires Inv(l, s) && Progress(start, s, now, []) && Ordered(page)
    requires i < |page| && HalfWay(page, i, delivered, s) && page[i].dueAt <= now
    ensures Progress(start, MarkFailed(l, s, page[i].deliveryId, error), now, [])
    ensures HalfWay(page, i + 1, delivered, MarkFailed(l, s, page[i].deliveryId, error))
  {
    hide Inv, Progress, HalfWay, MarkFailed, Ordered;
    HalfWayStored(page, i, delivered, s);
    FailureIsProgress(l, s, now, page[i], error);
    ProgressAgain(start, s, MarkFailed(l, s, page[i].deliveryId, error), now);
    HalfWayFailed(page, i, delivered, s, MarkFailed(l, s, page[i].deliveryId, error));
  }

  class DeadlineProcessor {
    const store: InMemoryDeadlineStore
    const batchSize: nat
    var consecutiveFailures: nat
    /** The deadlines whose handler run succeeded, in order. */
    ghost var handled: seq<Deadline>

    constructor (store: InMemoryDeadlineStore, batchSize: nat)
      requires 0 < batchSize
      ensures this.store == store && this.batchSize == batchSize && consecutiveFailures == 0 && handled == []
    {
      this.store := store;
      this.batchSize := batchSize;
      this.consecutiveFailures := 0;
      this.handled := [];
    }

    /** Runs the handler for each deadline of the page; a failing one is reported and skipped. */
    method HandlePage(page: seq<Deadline>, now: int, w: Weather)
      returns (delivered: seq<Deadline>, handlerFailed: bool)
      requires store.Valid() && IsDuePage(store.AsState(), now, batchSize, page)
      modifies store`pending, store`dead, this`handled
      ensures store.Valid() && Progress(old(store.AsState()), store.AsState(), now, [])
      ensures HalfWay(page, |page|, delivered, store.AsState())
      ensures handled == old(handled) + delivered
      ensures store.AsState() == AfterPage(store.limits, old(store.AsState()), page, w)
      ensures delivered == HandledOf(page, w)
      ensures handlerFailed <==> exists i :: 0 <= i < |page| && !w.handler(page[i].deliveryId).Handled?
      ensures !handlerFailed ==> delivered == page && store.AsState() == old(store.AsState())
      ensures BatchHandled(store.limits, old(store.AsState()), store.AsState(), [], page, w.(ack := FailsUnapplied))
      ensures AreHandled(page, w, delivered)
    {
      hide Inv, Progress, HalfWay, IsDuePage, MarkFailed, BatchHandled, AreHandled, FailureCounted, IdsOf;
      hide Ordered, Stored;
      delivered, handlerFailed := [], false;
      HalfWayOrdered(store.AsState(), now, batchSize, page);
      assert AfterPage(store.limits, store.AsState(), page[..0], w) == store.AsState() && HandledOf(page[..0], w) == [];
      hide AfterPage, HandledOf;
      HalfWayStart(store.AsState(), now, batchSize, page);
      ProgressNothing(store.AsState(), now, []);
      for i := 0 to |page|
        invariant store.Valid() && Progress(old(store.AsState()), store.AsState(), now, [])
        invariant HalfWay(page, i, delivered, store.AsState())
        invariant handled == old(handled) + delivered
        invariant store.AsState() == AfterPage(store.limits, old(store.AsState()), page[..i], w)
        invariant delivered == HandledOf(page[..i], w)
        invariant handlerFailed <==> exists j :: 0 <= j < i && !w.handler(page[j].deliveryId).Handled?
        invariant !handlerFailed ==> delivered == page[..i] && store.AsState() == old(store.AsState())
      {
        OneMoreOfPage(store.limits, old(store.AsState()), page, w, i);
        ghost var before := store.AsState();
        var outcome := w.handler(page[i].deliveryId);
        if outcome.Handled? {
          HalfWayHandled(page, i, delivered, before);
          delivered := delivered + [page[i]];
          handled := handled + [page[i]];
        } else {
          handlerFailed := true;
          if outcome.FailsPermanent? && !w.report(page[i].deliveryId).FailsUnapplied? {
            FailureStep(store.limits, old(store.AsState()), before, now, page, i, delivered,
                        w.error(page[i].deliveryId));
            var deadLetter := store.MarkFailed(page[i].deliveryId, w.error(page[i].deliveryId));
          } else {
            HalfWayFailed(page, i, delivered, before, before);
          }
        }
      }
      assert page[..|page|] == page;
      PageDoes(store.limits, old(store.AsState()), now, batchSize, page, w);
    }

    /** One page handled and acknowledged. */
    method HandleBatch(page: seq<Deadline>, now: int, w: Weather)
      returns (completed: bool, ghost delivered: seq<Deadline>)
      requires store.Valid() && IsDuePage(store.AsState(), now, batchSize, page)
      modifies store`pending, store`dead, this`handled, this`consecutiveFailures
      ensures store.Valid()
      ensures Progress(old(store.AsState()), store.AsState(), now, delivered)
      ensures Ordered(delivered) && (forall x :: x in delivered ==> x in page) && handled == old(handled) + delivered
      ensures completed ==> delivered == page && Removed(old(store.AsState()), store.AsState(), page)
      ensures delivered == HandledOf(page, w)
      ensures var mid := AfterPage(store.limits, old(store.AsState()), page, w);
              store.AsState()
              == if |delivered| > 0 && !w.ack.FailsUnapplied? then MarkDelivered(mid, IdsOf(delivered)) else mid
      ensures consecutiveFailures == if completed then 0 else old(consecutiveFailures) + 1
      ensures completed <==>
              (forall i :: 0 <= i < |page| ==> w.handler(page[i].deliveryId).Handled?)
              && (|page| == 0 || w.ack.Succeeds?)
      ensures Fair(w) ==> completed
      ensures BatchHandled(store.limits, old(store.AsState()), store.AsState(), [], page, w)
      ensures AreHandled(page, w, delivered)
    {
      hide Inv, Progress, Removed, MarkDelivered, IsDuePage, HalfWay, Ordered, Stored, AreHandled, BatchHandled;
      ghost var start := store.AsState();
      var done, handlerFailed := HandlePage(page, now, w);
      ghost var mid := store.AsState();
      delivered := done;
      HalfWayEnd(page, done, start, mid, now, batchSize);
      AckIsProgress(store.limits, start, mid, now, done);
      AckDoes(store.limits, start, mid, now, batchSize, page, w, done);
      var acked := true;
      if |done| > 0 {
        if !w.ack.FailsUnapplied? {
          store.MarkDelivered(IdsOf(done));
        }
        acked := w.ack.Succeeds?;
      }
      if handlerFailed || !acked {
        consecutiveFailures := consecutiveFailures + 1;
        return false, done;
      }
      consecutiveFailures := 0;
      return true, done;
    }

    /** One pass at a fixed time: until nothing is due or something fails. `pollFails` and
        `weather` say what goes wrong at each poll and in each batch; `last` is the last poll, `done`
        what the batches before it completed, `page` its own page and `delivered` what of that was
        handled. */
    method Pass(now: int, pollFails: nat -> bool, weather: nat -> Weather)
      returns (drained: bool, last: nat, ghost done: seq<Deadline>, ghost page: seq<Deadline>,
               ghost delivered: seq<Deadline>)
      requires store.Valid() && 0 < batchSize
      modifies store`pending, store`dead, this`handled, this`consecutiveFailures
      ensures store.Valid()
      ensures PassResult(old(store.AsState()), store.AsState(), now, old(handled), handled, drained)
      ensures consecutiveFailures == if drained then 0 else (if last == 0 then old(consecutiveFailures) else 0) + 1
      ensures (forall i :: !pollFails(i) && Fair(weather(i))) ==> drained
      ensures forall j: nat :: j < last ==> !pollFails(j) && weather(j).ack.Succeeds?
      ensures handled == old(handled) + done + delivered && AreHandled(page, weather(last), delivered)
      ensures FirstDue(old(store.AsState()), now, done + page)
      ensures drained || pollFails(last) ==> page == []
      ensures !drained && !pollFails(last) && |page| < batchSize ==>
                forall k :: IsDue(old(store.AsState()), now, k) ==> old(store.AsState()).pending[k] in done + page
      ensures BatchHandled(store.limits, old(store.AsState()), store.AsState(), done, page, weather(last))
    {
      hide Inv, Progress, Removed, IsDuePage, Ordered, Drained, PassResult, BatchHandled, AreHandled, FirstDue;
      hide Fair, AfterPage, HandledOf, MarkDelivered, IdsOf, IsDue;
      ghost var start := store.AsState();
      last, done, page, delivered := 0, [], [], [];
      DrainedStart(start, now);
      while true
        invariant store.Valid()
        invariant Drained(start, store.AsState(), now, done)
        invariant handled == old(handled) + done
        invariant page == [] && delivered == []
        invariant forall j: nat :: j < last ==> !pollFails(j) && weather(j).ack.Succeeds?
        invariant consecutiveFailures == if last == 0 then old(consecutiveFailures) else 0
        decreases |store.pending|
      {
        DrainedDoes(store.limits, start, store.AsState(), now, done, weather(last));
        if pollFails(last) {
          consecutiveFailures := consecutiveFailures + 1;
          PassStopped(start, store.AsState(), store.AsState(), now, done, [], batchSize, [], old(handled), handled);
          return false, last, done, [], [];
        }
        var batch := store.Due(now, batchSize);
        ghost var before := store.AsState();
        if |batch.value| == 0 {
          consecutiveFailures := 0;
          PassDrained(start, before, now, done, batchSize, old(handled), handled);
          return true, last, done, [], [];
        }
        var completed, handledOnes := HandleBatch(batch.value, now, weather(last));
        if !completed {
          PassStopped(start, before, store.AsState(), now, done, handledOnes, batchSize, batch.value, old(handled),
                      handled);
          StoppedDoes(store.limits, start, before, store.AsState(), now, done, batchSize, batch.value, weather(last));
          return false, last, done, batch.value, handledOnes;
        }
        DrainedStep(start, before, store.AsState(), now, done, batchSize, batch.value);
        done := done + batch.value;
        last := last + 1;
      }
    }
  }

  /** Acknowledging the handled ones, or losing that call, is progress; with none handled there
      is nothing to acknowledge. */
  lemma AckIsProgress(l: Limits, start: State, mid: State, now: int, done: seq<Deadline>)
    requires Inv(l, mid) && Progress(start, mid, now, [])
    requires Ordered(done) && forall i :: 0 <= i < |done| ==> Stored(mid, done[i]) && done[i].dueAt <= now
    ensures Progress(start, mid, now, done)
    ensures Progress(start, MarkDelivered(mid, IdsOf(done)), now, done)
    ensures Removed(mid, MarkDelivered(mid, IdsOf(done)), done)
    ensures |done| == 0 ==> Removed(mid, mid, done)
  {
    hide Inv, Progress, MarkDelivered, Stored, Ordered;
    assert |done| == 0 ==> Removed(mid, mid, done);
    hide Removed;
    AckRemoves(l, mid, done);
    var after := MarkDelivered(mid, IdsOf(done));
    RemovedIsProgress(mid, after, now, done);
    ProgressNothing(mid, now, done);
    ProgressThrough(start, mid, mid, now, [], done);
    ProgressThrough(start, mid, after, now, [], done);
    assert [] + done == done;
  }

  lemma HalfWayStored(page: seq<Deadline>, i: nat, delivered: seq<Deadline>, s: State)
    requires i < |page| && HalfWay(page, i, delivered, s)
    ensures Stored(s, page[i])
  {
  }

  lemma HalfWayEnd(page: seq<Deadline>, delivered: seq<Deadline>, start: State, s: State, now: int, limit: nat)
    requires HalfWay(page, |page|, delivered, s) && IsDuePage(start, now, limit, page)
    ensures Ordered(delivered) && forall x :: x in delivered ==> x in page
    ensures forall i :: 0 <= i < |delivered| ==> Stored(s, delivered[i]) && delivered[i].dueAt <= now
  {
    assert page[..|page|] == page;
    forall i | 0 <= i < |delivered| ensures Stored(s, delivered[i]) && delivered[i].dueAt <= now {
      assert delivered[i] in delivered;
      assert delivered[i] in page;
    }
  }

  /** After complete batches only: what was handled, in order, is what became due first, and it
      is exactly what left the store. */
  ghost predicate Drained(start: State, s: State, now: int, done: seq<Deadline>) {
    && Ordered(done) && Removed(start, s, done)
    && (forall x :: x in done ==> Stored(start, x) && x.dueAt <= now)
    && forall k, x :: IsDue(s, now, k) && x in done ==> Before(x, s.pending[k])
  }

  /** A pass handles deadlines that were pending and due when it began, each at most once and in
      delivery order. If it drains, it handled all of them and nothing else changed. */
  ghost predicate PassResult(start: State, s: State, now: int, handled0: seq<Deadline>, handled: seq<Deadline>,
                             drained: bool) {
    exists done ::
      && handled == handled0 + done && Ordered(done)
      && (forall x :: x in done ==> Stored(start, x) && x.dueAt <= now)
      && Progress(start, s, now, done)
      && (drained ==> Removed(start, s, done) && forall k :: IsDue(start, now, k) ==> start.pending[k] in done)
  }

  /** Due deadlines in delivery order, before every other due one. */
  ghost predicate FirstDue(s: State, now: int, ds: seq<Deadline>) {
    && Ordered(ds) && (forall x :: x in ds ==> Stored(s, x) && x.dueAt <= now)
    && forall k, x :: IsDue(s, now, k) && s.pending[k] !in ds && x in ds ==> Before(x, s.pending[k])
  }

  lemma DrainedStart(s: State, now: int)
    ensures Drained(s, s, now, [])
  {
  }

  lemma DrainedStep(start: State, before: State, after: State, now: int, done: seq<Deadline>, limit: nat,
                    page: seq<Deadline>)
    requires Drained(start, before, now, done) && IsDuePage(before, now, limit, page) && |page| > 0
    requires Removed(before, after, page)
    ensures Drained(start, after, now, done + page)
    ensures |after.pending| < |before.pending|
  {
    OrderedConcat(start, before, now, done, page, limit);
    forall k, x | IsDue(after, now, k) && x in done + page ensures Before(x, after.pending[k]) {
      assert IsDue(before, now, k);
      if x in page {
        var i :| 0 <= i < |page| && page[i] == x;
      }
    }
    assert Stored(before, page[0]);
    assert page[0].slot in before.pending.Keys && page[0].slot !in after.pending.Keys;
    FewerKeys(after.pending, before.pending, page[0].slot);
  }

  lemma DrainedDoes(l: Limits, start: State, s: State, now: int, done: seq<Deadline>, w: Weather)
    requires Inv(l, start) && Drained(start, s, now, done)
    ensures BatchHandled(l, start, s, done, [], w) && AreHandled([], w, [])
    ensures FirstDue(start, now, done) && done + [] == done
  {
    IdsAreOwn(l, start);
    hide Inv;
    forall k, x | IsDue(start, now, k) && start.pending[k] !in done && x in done ensures Before(x, start.pending[k]) {
      assert IsDue(s, now, k);
    }
  }

  lemma StoppedDoes(l: Limits, start: State, before: State, after: State, now: int, done: seq<Deadline>, limit: nat,
                    page: seq<Deadline>, w: Weather)
    requires Inv(l, start) && Drained(start, before, now, done) && IsDuePage(before, now, limit, page)
    requires BatchHandled(l, before, after, [], page, w)
    ensures BatchHandled(l, start, after, done, page, w)
    ensures FirstDue(start, now, done + page)
    ensures |page| < limit ==> forall k :: IsDue(start, now, k) ==> start.pending[k] in done + page
  {
    hide Inv, BatchHandled;
    IdsAreOwn(l, start);
    PageIsStored(before, now, limit, page);
    LaterBatchHandled(l, start, before, after, done, page, w);
    OrderedConcat(start, before, now, done, page, limit);
    forall k | IsDue(start, now, k) && start.pending[k] !in done ensures IsDue(before, now, k) {
    }
    forall k, x | IsDue(start, now, k) && start.pending[k] !in done + page && x in done + page
      ensures Before(x, start.pending[k]) {
      assert IsDue(before, now, k);
      if x in page {
        var i :| 0 <= i < |page| && page[i] == x;
      }
    }
  }

  lemma FewerKeys<K, V>(small: map<K, V>, large: map<K, V>, k: K)
    requires small.Keys <= large.Keys && k in large && k !in small
    ensures |small| < |large|
  {
    SubsetCount(small.Keys, large.Keys - {k});
    assert |small| == |small.Keys| && |large| == |large.Keys|;
  }

  lemma OrderedConcat(start: State, s: State, now: int, done: seq<Deadline>, page: seq<Deadline>, limit: nat)
    requires Drained(start, s, now, done) && IsDuePage(s, now, limit, page)
    ensures Ordered(done + page)
    ensures forall x :: x in done + page ==> Stored(start, x) && x.dueAt <= now
  {
    forall i, j | 0 <= i < |done| && 0 <= j < |page| ensures Before(done[i], page[j]) {
      assert Stored(s, page[j]);
      assert IsDue(s, now, page[j].slot) && done[i] in done;
    }
    forall x | x in page ensures Stored(start, x) && x.dueAt <= now {
      var j :| 0 <= j < |page| && page[j] == x;
      assert Stored(s, x);
    }
  }

  lemma PassDrained(start: State, s: State, now: int, done: seq<Deadline>, limit: nat,
                    handled0: seq<Deadline>, handled: seq<Deadline>)
    requires Drained(start, s, now, done) && IsDuePage(s, now, limit, []) && 0 < limit && handled == handled0 + done
    ensures PassResult(start, s, now, handled0, handled, true)
  {
    forall i | 0 <= i < |done| ensures done[i].dueAt <= now {
      assert done[i] in done;
    }
    RemovedIsProgress(start, s, now, done);
    forall k | IsDue(start, now, k) ensures start.pending[k] in done {
      if start.pending[k] !in done {
        assert IsDue(s, now, k);
      }
    }
  }

  lemma PassStopped(start: State, before: State, after: State, now: int, done: seq<Deadline>, more: seq<Deadline>,
                    limit: nat, page: seq<Deadline>, handled0: seq<Deadline>, handled: seq<Deadline>)
    requires Drained(start, before, now, done)
    requires (more == [] && after == before)
             || (IsDuePage(before, now, limit, page) && Ordered(more) && (forall x :: x in more ==> x in page)
                 && Progress(before, after, now, more))
    requires handled == handled0 + done + more
    ensures PassResult(start, after, now, handled0, handled, false)
  {
    forall i | 0 <= i < |done| ensures done[i].dueAt <= now {
      assert done[i] in done;
    }
    RemovedIsProgress(start, before, now, done);
    if more == [] && after == before {
      ProgressNothing(before, now, more);
    } else {
      OrderedSome(start, before, now, done, page, more, limit);
    }
    ProgressThrough(start, before, after, now, done, more);
    assert handled == handled0 + (done + more);
    assert more == [] ==> done + more == done;
  }

  lemma OrderedSome(start: State, s: State, now: int, done: seq<Deadline>, page: seq<Deadline>, more: seq<Deadline>,
                    limit: nat)
    requires Drained(start, s, now, done) && IsDuePage(s, now, limit, page)
    requires Ordered(more) && forall x :: x in more ==> x in page
    ensures Ordered(done + more)
    ensures forall x :: x in done + more ==> Stored(start, x) && x.dueAt <= now
  {
    OrderedConcat(start, s, now, done, page, limit);
    forall i, j | 0 <= i < |done| && 0 <= j < |more| ensures Before(done[i], more[j]) {
      assert more[j] in more;
      var m :| 0 <= m < |page| && page[m] == more[j];
      assert (done + page)[i] == done[i] && (done + page)[|done| + m] == more[j];
    }
    forall x | x in more ensures Stored(start, x) && x.dueAt <= now {
      assert x in done + page;
    }
  }
}
