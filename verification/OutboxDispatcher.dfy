/** The dispatcher's pass over an in-memory outbox nobody else touches meanwhile: batch after
    batch, publish in order, acknowledge the delivered prefix, report the failed record. */
module OutboxDispatchers {
  import opened Common
  import opened OrderedMaps
  import opened Outboxes
  import opened OutboxChain
  import opened DispatchProtocol
  import opened InMemoryOutboxes

  /** What goes wrong in one batch: at which record the publish rejects, whether that failure
      is transient, and how the acknowledgement and the failure report fare. */
  datatype Weather = Weather(publishFailsAt: Option<nat>, transient: bool, ack: StorageCall, report: StorageCall)

  predicate Fair(w: Weather) { w.publishFailsAt.None? && w.ack.Succeeds? }

  /** Each pending record is stored under its own dispatch id. */
  ghost predicate Keyed(m: OrderedMap<string, Record>) {
    forall id :: id in m.entries ==> m.entries[id].dispatchId == id
  }

  lemma AcceptKeepsKeyed(l: Limits, s: State, c: Candidate)
    requires Keyed(s.pending) && Keyed(s.dead) && AddOne(l, s, c).Ok?
    ensures Keyed(AddOne(l, s, c).value.pending) && Keyed(AddOne(l, s, c).value.dead)
  {
  }

  /** Every `add`, a version refresh included, keeps records under their own ids. */
  lemma {:induction false} AddKeepsKeyed(l: Limits, s: State, cs: seq<Candidate>)
    requires Keyed(s.pending) && Keyed(s.dead)
    ensures Keyed(AddLoop(l, s, cs).state.pending) && Keyed(AddLoop(l, s, cs).state.dead)
  {
    if |cs| > 0 {
      AddKeepsKeyed(l, s, cs[..|cs| - 1]);
      var before := AddLoop(l, s, cs[..|cs| - 1]);
      if before.error.None? && AddOne(l, before.state, cs[|cs| - 1]).Ok? {
        AcceptKeepsKeyed(l, before.state, cs[|cs| - 1]);
      }
    }
  }

  function DeliveredCount(size: nat, w: Weather): (n: nat)
    ensures n <= size
  {
    if w.publishFailsAt.Some? && w.publishFailsAt.value < size then w.publishFailsAt.value else size
  }

  function AfterAck(l: Limits, s: State, ids: seq<string>, ack: StorageCall): State {
    if |ids| > 0 && !ack.FailsUnapplied? then MarkDispatched(l, s, ids) else s
  }

  /** The failed record is reported only to a tracking outbox and only if not transient. */
  function AfterReport(l: Limits, s: State, id: string, error: string, tracking: bool, w: Weather): State {
    if tracking && !w.transient && !w.report.FailsUnapplied? then MarkFailed(l, s, id, error) else s
  }

  function Max(a: nat, b: nat): nat { if a < b then b else a }

  function Ids(batch: seq<Record>): (ids: seq<string>)
    ensures |ids| == |batch| && forall i :: 0 <= i < |batch| ==> ids[i] == batch[i].dispatchId
  {
    seq(|batch|, i requires 0 <= i < |batch| => batch[i].dispatchId)
  }

  /** The failure streak after a failed cycle: an acknowledged prefix restarts it, and it is
      never below the failed record's own attempts. */
  function Streak(before: nat, batch: seq<Record>, w: Weather): (streak: nat)
    ensures streak > 0
  {
    var d := DeliveredCount(|batch|, w);
    Max((if d > 0 && w.ack.Succeeds? then 0 else before) + 1, (if d < |batch| then batch[d].attempts else 0) + 1)
  }

  /** What became of the queue: the first `acked` records left it; the failed one counts one attempt
      more with the given error, or died at the ceiling; every other record is as before. */
  ghost predicate Handled(l: Limits, before: State, after: State, acked: nat, failed: Option<nat>, error: string) {
    var order := before.pending.order;
    && acked <= |order| && (failed.Some? ==> acked <= failed.value < |order|)
    && QueueHandled(before, after, order, acked, failed)
    && DeadHandled(before, after, if failed.Some? then Some(order[failed.value]) else None)
    && (failed.Some? ==> CountsFailure(l, before, after, order[failed.value], error))
  }

  ghost predicate QueueHandled(before: State, after: State, order: seq<string>, acked: nat, failed: Option<nat>) {
    && (forall i :: 0 <= i < acked && i < |order| ==> order[i] !in after.pending.entries)
    && (forall i :: acked <= i < |order| && failed != Some(i) ==> IsUntouched(before, after, order[i]))
    && (forall id :: id in after.pending.entries ==> id in order)
  }

  /** No dead letter is lost or changed, and only the given record can have joined them. */
  ghost predicate DeadHandled(before: State, after: State, joined: Option<string>) {
    && (forall id :: id in before.dead.entries ==> id in after.dead.entries)
    && (forall id :: id in after.dead.entries && joined != Some(id) ==>
          id in before.dead.entries && after.dead.entries[id] == before.dead.entries[id])
  }

  ghost predicate IsUntouched(before: State, after: State, id: string) {
    && id in before.pending.entries && id in after.pending.entries
    && after.pending.entries[id] == before.pending.entries[id]
  }

  /** Below the ceiling the record stays pending, at the ceiling it is a dead letter; either way with
      one attempt more, the error, and nothing else changed. */
  ghost predicate CountsFailure(l: Limits, before: State, after: State, id: string, error: string) {
    && id in before.pending.entries
    && var r := before.pending.entries[id];
       var failed := Record(r.dispatchId, r.event, r.source, r.position, r.attempts + 1, Some(error));
       if r.attempts + 1 == l.maxDeliveryAttempts then
         id !in after.pending.entries && id in after.dead.entries && after.dead.entries[id] == failed
       else
         r.attempts + 1 < l.maxDeliveryAttempts && id !in after.dead.entries
         && id in after.pending.entries && after.pending.entries[id] == failed
  }

  /** The state one batch of the given records leaves. */
  function AfterBatch(l: Limits, s: State, batch: seq<string>, error: string, tracking: bool, w: Weather): State {
    var d := DeliveredCount(|batch|, w);
    var acked := AfterAck(l, s, batch[..d], w.ack);
    if d < |batch| then AfterReport(l, acked, batch[d], error, tracking, w) else acked
  }

  /** The batch is the records at the head of the queue. */
  ghost predicate HeadsQueue(batch: seq<Record>, s: State) {
    && s.pending.Valid() && Keyed(s.pending) && |batch| <= |s.pending.order|
    && forall i :: 0 <= i < |batch| ==> batch[i] == s.pending.entries[s.pending.order[i]]
  }

  /** What a batch of `size` records that starts at queue place `start` does: up to the first record
      whose publish rejects everything is delivered, and acknowledged unless the acknowledgement was
      lost; the rejected record is counted only if the outbox tracks deliveries, the failure is
      permanent and the report was not lost. */
  ghost predicate BatchHandled(l: Limits, before: State, after: State, start: nat, size: nat, w: Weather,
                               tracking: bool, error: string) {
    if w.publishFailsAt.Some? && w.publishFailsAt.value < size then
      var n := start + w.publishFailsAt.value;
      Handled(l, before, after, if w.ack.FailsUnapplied? then start else n,
              if tracking && !w.transient && !w.report.FailsUnapplied? then Some(n) else None, error)
    else
      Handled(l, before, after, if w.ack.FailsUnapplied? then start else start + size, None, error)
  }

  /** The streak after a batch that did not complete: one more than before, or one if a delivered
      prefix was acknowledged, and at least the attempts of the failed record and one. */
  ghost predicate StreakAfter(before: nat, after: nat, batch: seq<Record>, w: Weather) {
    if w.publishFailsAt.Some? && w.publishFailsAt.value < |batch| then
      var floor := batch[w.publishFailsAt.value].attempts + 1;
      var next := if w.publishFailsAt.value > 0 && w.ack.Succeeds? then 1 else before + 1;
      after >= floor && after >= next && (after == floor || after == next)
    else after == before + 1
  }

  class OutboxDispatcher {
    const outbox: InMemoryOutbox
    const batchSize: nat
    const usesDispatchTracking: bool
    var consecutiveFailures: nat
    /** The records whose publish resolved, in order. */
    ghost var sent: seq<string>

    constructor (outbox: InMemoryOutbox, batchSize: nat, usesDispatchTracking: bool)
      requires 0 < batchSize
      ensures this.outbox == outbox && this.batchSize == batchSize && sent == [] && consecutiveFailures == 0
      ensures this.usesDispatchTracking == usesDispatchTracking
    {
      this.outbox := outbox;
      this.batchSize := batchSize;
      this.usesDispatchTracking := usesDispatchTracking;
      this.consecutiveFailures := 0;
      this.sent := [];
    }

    /** The delivered prefix and whether the publish of the next record rejected. */
    method PublishBatch(batch: seq<Record>, w: Weather) returns (delivered: seq<string>, failed: Option<Record>)
      modifies this`sent
      ensures |delivered| == DeliveredCount(|batch|, w)
      ensures forall i :: 0 <= i < |delivered| ==> delivered[i] == batch[i].dispatchId
      ensures failed == if |delivered| < |batch| then Some(batch[|delivered|]) else None
      ensures sent == old(sent) + delivered
    {
      delivered, failed := [], None;
      for i := 0 to |batch|
        invariant |delivered| == i && failed.None?
        invariant forall j :: 0 <= j < i ==> delivered[j] == batch[j].dispatchId
        invariant w.publishFailsAt.Some? ==> i <= w.publishFailsAt.value || |batch| <= w.publishFailsAt.value
        invariant sent == old(sent) + delivered
      {
        if w.publishFailsAt == Some(i) {
          failed := Some(batch[i]);
          break;
        }
        sent := sent + [batch[i].dispatchId];
        delivered := delivered + [batch[i].dispatchId];
      }
    }

    method DispatchBatch(batch: seq<Record>, w: Weather, error: string) returns (completed: bool)
      requires outbox.Valid() && |batch| > 0
      modifies this`consecutiveFailures, this`sent, outbox`pending, outbox`dead, outbox`dispatchedEventIds
      ensures outbox.Valid()
      ensures outbox.AsState()
           == AfterBatch(outbox.limits, old(outbox.AsState()), Ids(batch), error, usesDispatchTracking, w)
      ensures sent == old(sent) + Ids(batch)[..DeliveredCount(|batch|, w)]
      ensures completed <==> DeliveredCount(|batch|, w) == |batch| && w.ack.Succeeds?
      ensures consecutiveFailures == if completed then 0 else Streak(old(consecutiveFailures), batch, w)
      ensures old(HeadsQueue(batch, outbox.AsState())) ==>
                BatchHandled(outbox.limits, old(outbox.AsState()), outbox.AsState(), 0, |batch|, w,
                             usesDispatchTracking, error)
      ensures !completed ==> StreakAfter(old(consecutiveFailures), consecutiveFailures, batch, w)
    {
      hide StorageInv, WithinLimits, MarkDispatched, MarkFailed, ChainInv, HeadsQueue, BatchHandled, StreakAfter;
      BatchDoes(outbox.limits, outbox.AsState(), batch, error, usesDispatchTracking, w);
      StreakIs(consecutiveFailures, batch, w);
      var delivered, failedRecord := PublishBatch(batch, w);
      assert delivered == Ids(batch)[..DeliveredCount(|batch|, w)];
      var acked := true;
      if |delivered| > 0 {
        if !w.ack.FailsUnapplied? {
          outbox.MarkDispatched(delivered);
        }
        if w.ack.Succeeds? {
          consecutiveFailures := 0;
        } else {
          acked := false;
        }
      }
      if failedRecord.Some? && usesDispatchTracking && !w.transient && !w.report.FailsUnapplied? {
        var deadLetter := outbox.MarkFailed(failedRecord.value.dispatchId, error);
      }
      if failedRecord.Some? || !acked {
        consecutiveFailures :=
          Max(consecutiveFailures + 1, (if failedRecord.Some? then failedRecord.value.attempts else 0) + 1);
      }
      completed := failedRecord.None? && acked;
    }

    /** Dispatches the records at the head of the queue and says what that did to the queue. */
    method DispatchHead(batch: seq<Record>, w: Weather, error: string)
      returns (completed: bool, ghost acked: nat, ghost delivered: nat)
      requires outbox.Valid() && Keyed(outbox.pending)
      requires 0 < |batch| <= |outbox.pending.order| && batch == PendingRecords(outbox.AsState())[..|batch|]
      modifies this`consecutiveFailures, this`sent, outbox`pending, outbox`dead, outbox`dispatchedEventIds
      ensures outbox.Valid() && Keyed(outbox.pending)
      ensures Acknowledged(old(outbox.pending.order), outbox.pending.order, acked, delivered, outbox.dead)
      ensures sent == old(sent) + old(outbox.pending.order)[..delivered]
      ensures completed ==> 0 < delivered && outbox.pending.order == old(outbox.pending.order)[delivered..]
      ensures consecutiveFailures == if completed then 0 else Streak(old(consecutiveFailures), batch, w)
      ensures Fair(w) ==> completed
      ensures completed ==>
                Handled(outbox.limits, old(outbox.AsState()), outbox.AsState(), |batch|, None, error)
                && delivered == |batch| && w.ack.Succeeds?
      ensures !completed ==>
                && BatchHandled(outbox.limits, old(outbox.AsState()), outbox.AsState(), 0, |batch|, w,
                                usesDispatchTracking, error)
                && StreakAfter(old(consecutiveFailures), consecutiveFailures, batch, w)
    {
      hide StorageInv, WithinLimits, ChainInv, AfterBatch, Keyed, Streak, HeadsQueue, Handled, StreakAfter;
      hide BatchHandled;
      ghost var before := outbox.AsState();
      ghost var order := outbox.pending.order;
      BatchHeadsQueue(outbox.limits, before, batch);
      BatchOutcome(outbox.limits, before, Ids(batch), error, usesDispatchTracking, w);
      completed := DispatchBatch(batch, w, error);
      delivered := DeliveredCount(|batch|, w);
      if completed {
        CompletedIsHandled(outbox.limits, before, outbox.AsState(), |batch|, w, usesDispatchTracking, error);
      }
      acked :| acked <= delivered && Acknowledged(order, outbox.pending.order, acked, delivered, outbox.dead);
      assert order[..|batch|][..delivered] == order[..delivered];
    }

    /** One pass: until the backlog is empty or something fails. `pollFails` and `weather` say
        what goes wrong at each poll and in each batch; `last` is the last poll, and `start` the place
        in the queue it had reached. */
    method Pass(pollFails: nat -> bool, weather: nat -> Weather, error: string)
      returns (drained: bool, last: nat, ghost start: nat)
      requires outbox.Valid() && Keyed(outbox.pending) && 0 < batchSize
      modifies this`consecutiveFailures, this`sent, outbox`pending, outbox`dead, outbox`dispatchedEventIds
      ensures outbox.Valid() && Keyed(outbox.pending)
      ensures PassResult(old(outbox.pending.order), outbox.pending.order, old(sent), sent, outbox.dead)
      ensures drained ==>
                outbox.pending.order == [] && sent == old(sent) + old(outbox.pending.order) && consecutiveFailures == 0
      ensures !drained ==> consecutiveFailures > 0
      ensures (forall i :: !pollFails(i) && Fair(weather(i))) ==> drained
      ensures forall j: nat :: j < last ==> !pollFails(j) && weather(j).ack.Succeeds?
      ensures drained || pollFails(last) ==>
                Handled(outbox.limits, old(outbox.AsState()), outbox.AsState(), start, None, error)
      ensures !drained && pollFails(last) ==>
                consecutiveFailures == (if start == 0 then old(consecutiveFailures) else 0) + 1
      ensures !drained && !pollFails(last) ==>
                && start < |old(outbox.pending.order)|
                && var batch := BatchFrom(old(outbox.AsState()), start, batchSize);
                   && BatchHandled(outbox.limits, old(outbox.AsState()), outbox.AsState(), start, |batch|,
                                   weather(last), usesDispatchTracking, error)
                   && StreakAfter(if start == 0 then old(consecutiveFailures) else 0, consecutiveFailures, batch,
                                  weather(last))
    {
      hide StorageInv, WithinLimits, ChainInv, Keyed, PassResult, Acknowledged, Streak, Handled, BatchHandled;
      hide StreakAfter, BatchFrom;
      ghost var order := outbox.pending.order;
      ghost var s0 := outbox.AsState();
      NothingHandled(outbox.limits, s0, error);
      last, start := 0, 0;
      while true
        invariant outbox.Valid() && Keyed(outbox.pending)
        invariant start <= |order|
        invariant forall j: nat :: j < last ==> !pollFails(j) && weather(j).ack.Succeeds?
        invariant outbox.pending.order == order[start..]
        invariant sent == old(sent) + order[..start]
        invariant Handled(outbox.limits, s0, outbox.AsState(), start, None, error)
        invariant consecutiveFailures == if start == 0 then old(consecutiveFailures) else 0
        decreases |outbox.pending.order|
      {
        if pollFails(last) {
          consecutiveFailures := consecutiveFailures + 1;
          PassEnds(order, outbox.pending.order, start, old(sent), sent, outbox.dead);
          return false, last, start;
        }
        var batch := outbox.GetPending(Some(batchSize));
        if |batch| == 0 {
          consecutiveFailures := 0;
          PassEnds(order, outbox.pending.order, start, old(sent), sent, outbox.dead);
          return true, last, start;
        }
        ghost var now := outbox.AsState();
        RestOfBatch(outbox.limits, s0, now, start, batchSize, error);
        var completed, k, d := DispatchHead(batch, weather(last), error);
        if !completed {
          PassStops(order, start, now.pending.order, outbox.pending.order, k, d, old(sent), sent, outbox.dead);
          LaterBatchHandled(outbox.limits, s0, now, outbox.AsState(), start, |batch|, weather(last),
                            usesDispatchTracking, error);
          return false, last, start;
        }
        BatchDone(order, start, now.pending.order, outbox.pending.order, k, d, old(sent), outbox.dead);
        HandledInTurn(outbox.limits, s0, now, outbox.AsState(), start, d, None, error);
        start := start + d;
        last := last + 1;
      }
    }
  }

  /** The records from place `start` of the queue, at most `size` of them. */
  function BatchFrom(s: State, start: nat, size: nat): seq<Record>
    requires s.pending.Valid() && start <= |s.pending.order|
  {
    PendingRecords(s)[start..if start + size < |s.pending.order| then start + size else |s.pending.order|]
  }

  lemma CompletedIsHandled(l: Limits, before: State, after: State, size: nat, w: Weather, tracking: bool,
                           error: string)
    requires BatchHandled(l, before, after, 0, size, w, tracking, error)
    requires DeliveredCount(size, w) == size && w.ack.Succeeds?
    ensures Handled(l, before, after, size, None, error)
  {
    hide Handled;
  }

  lemma NothingHandled(l: Limits, s: State, error: string)
    requires StorageInv(l, s)
    ensures Handled(l, s, s, 0, None, error)
  {
  }

  /** What is left of the queue holds the records that were there at the start. */
  lemma RestOfQueue(l: Limits, s: State, now: State, start: nat, error: string)
    requires StorageInv(l, s) && StorageInv(l, now) && start <= |s.pending.order|
    requires now.pending.order == s.pending.order[start..] && Handled(l, s, now, start, None, error)
    ensures PendingRecords(now) == PendingRecords(s)[start..]
  {
    var x, y := PendingRecords(now), PendingRecords(s)[start..];
    hide StorageInv;
    assert |x| == |y|;
    hide QueueHandled, DeadHandled;
    forall i | 0 <= i < |x| ensures x[i] == y[i] {
      StillUntouched(s, now, s.pending.order, start, start + i);
      assert now.pending.order[i] == s.pending.order[start + i];
    }
  }

  lemma RestOfBatch(l: Limits, s: State, now: State, start: nat, size: nat, error: string)
    requires StorageInv(l, s) && StorageInv(l, now) && start <= |s.pending.order|
    requires now.pending.order == s.pending.order[start..] && Handled(l, s, now, start, None, error)
    ensures BatchFrom(s, start, size)
         == if size >= |PendingRecords(now)| then PendingRecords(now) else PendingRecords(now)[..size]
  {
    RestOfQueue(l, s, now, start, error);
    hide StorageInv, Handled;
    if size < |PendingRecords(now)| {
      assert PendingRecords(s)[start..][..size] == PendingRecords(s)[start..start + size];
    }
  }

  lemma UntouchedInTurn(s: State, mid: State, after: State, id: string)
    requires IsUntouched(s, mid, id) && IsUntouched(mid, after, id)
    ensures IsUntouched(s, after, id)
  {
  }

  lemma RestIsGone(after: State, order: seq<string>, m: nat, k: nat, i: nat)
    requires Distinct(order) && m + k <= |order| && i < m + k
    requires forall j :: 0 <= j < k ==> order[m..][j] !in after.pending.entries
    requires forall id :: id in after.pending.entries ==> id in order[m..]
    ensures order[i] !in after.pending.entries
  {
    if i < m {
      GoneStaysOut(order, m, i);
    } else {
      assert order[m..][i - m] == order[i];
    }
  }

  lemma QueueInTurn(s: State, mid: State, after: State, order: seq<string>, m: nat, k: nat, f: Option<nat>)
    requires Distinct(order) && m + k <= |order| && mid.pending.order == order[m..]
    requires QueueHandled(s, mid, order, m, None) && QueueHandled(mid, after, order[m..], k, f)
    ensures QueueHandled(s, after, order, m + k, if f.Some? then Some(m + f.value) else None)
  {
    hide IsUntouched, Distinct;
    forall i | m + k <= i < |order| && !(f.Some? && i == m + f.value) ensures IsUntouched(s, after, order[i]) {
      assert order[m..][i - m] == order[i];
      UntouchedInTurn(s, mid, after, order[i]);
    }
    forall i | 0 <= i < m + k ensures order[i] !in after.pending.entries {
      RestIsGone(after, order, m, k, i);
    }
  }

  lemma QueueIsDistinct(l: Limits, s: State)
    requires StorageInv(l, s)
    ensures Distinct(s.pending.order)
  {
  }

  lemma DeadInTurn(s: State, mid: State, after: State, joined: Option<string>)
    requires DeadHandled(s, mid, None) && DeadHandled(mid, after, joined)
    ensures DeadHandled(s, after, joined)
  {
  }

  /** What happens to the rest of the queue after its head was acknowledged happens to the queue. */
  lemma HandledInTurn(l: Limits, s: State, mid: State, after: State, m: nat, k: nat, f: Option<nat>, error: string)
    requires StorageInv(l, s) && Handled(l, s, mid, m, None, error)
    requires mid.pending.order == s.pending.order[m..] && Handled(l, mid, after, k, f, error)
    ensures Handled(l, s, after, m + k, if f.Some? then Some(m + f.value) else None, error)
  {
    var order := s.pending.order;
    QueueIsDistinct(l, s);
    hide StorageInv, QueueHandled, DeadHandled, CountsFailure, IsUntouched, Distinct;
    QueueInTurn(s, mid, after, order, m, k, f);
    DeadInTurn(s, mid, after, if f.Some? then Some(order[m..][f.value]) else None);
    if f.Some? {
      assert order[m..][f.value] == order[m + f.value];
      StillUntouched(s, mid, order, m, m + f.value);
      CountedAsBefore(l, s, mid, after, order[m + f.value], error);
    }
  }

  lemma StillUntouched(s: State, mid: State, order: seq<string>, k: nat, i: nat)
    requires QueueHandled(s, mid, order, k, None) && k <= i < |order|
    ensures IsUntouched(s, mid, order[i])
  {
  }

  lemma GoneStaysOut(order: seq<string>, m: nat, i: nat)
    requires Distinct(order) && i < m <= |order|
    ensures order[i] !in order[m..]
  {
  }

  lemma LaterBatchHandled(l: Limits, s: State, mid: State, after: State, start: nat, size: nat, w: Weather,
                          tracking: bool, error: string)
    requires StorageInv(l, s) && Handled(l, s, mid, start, None, error)
    requires mid.pending.order == s.pending.order[start..] && BatchHandled(l, mid, after, 0, size, w, tracking, error)
    ensures BatchHandled(l, s, after, start, size, w, tracking, error)
  {
    hide Handled;
    var fails := w.publishFailsAt.Some? && w.publishFailsAt.value < size;
    var n := if fails then w.publishFailsAt.value else size;
    HandledInTurn(l, s, mid, after, start, if w.ack.FailsUnapplied? then 0 else n,
                  if fails && tracking && !w.transient && !w.report.FailsUnapplied? then Some(n) else None, error);
  }

  /** Of the queue at the start, the first k were acknowledged; record d may have become a
      dead letter; everything else is still queued, in order. */
  ghost predicate Acknowledged(order: seq<string>, after: seq<string>, k: nat, d: nat,
                               dead: OrderedMap<string, Record>) {
    && k <= d <= |order|
    && (after == order[k..] || (d < |order| && after == Without(order[k..], order[d]) && dead.Has(order[d])))
  }

  /** The pass published a prefix of the queue, each record once and in order, and only
      published records or one dead letter left the queue. */
  ghost predicate PassResult(order: seq<string>, after: seq<string>, sent0: seq<string>, sent: seq<string>,
                             dead: OrderedMap<string, Record>) {
    exists k: nat, d: nat :: Acknowledged(order, after, k, d, dead) && sent == sent0 + order[..d]
  }

  lemma PassEnds(order: seq<string>, after: seq<string>, m: nat, sent0: seq<string>, sent: seq<string>,
                 dead: OrderedMap<string, Record>)
    requires m <= |order| && after == order[m..] && sent == sent0 + order[..m]
    ensures PassResult(order, after, sent0, sent, dead)
    ensures after == [] ==> sent == sent0 + order
  {
    assert Acknowledged(order, after, m, m, dead);
    assert |after| == |order| - m;
    if m == |order| {
      assert order[..m] == order;
    }
  }

  lemma PassStops(order: seq<string>, m: nat, rest: seq<string>, after: seq<string>, k: nat, d: nat,
                  sent0: seq<string>, sent: seq<string>, dead: OrderedMap<string, Record>)
    requires m <= |order| && rest == order[m..] && Acknowledged(rest, after, k, d, dead)
    requires sent == sent0 + order[..m] + rest[..d]
    ensures PassResult(order, after, sent0, sent, dead)
  {
    assert rest[k..] == order[m + k..];
    assert Acknowledged(order, after, m + k, m + d, dead);
    assert order[..m] + rest[..d] == order[..m + d];
    assert sent == sent0 + order[..m + d];
  }

  lemma BatchDone(order: seq<string>, m: nat, rest: seq<string>, after: seq<string>, k: nat, d: nat,
                  sent0: seq<string>, dead: OrderedMap<string, Record>)
    requires m <= |order| && rest == order[m..] && Acknowledged(rest, after, k, d, dead)
    requires after == rest[d..]
    ensures d <= |rest| && m + d <= |order|
    ensures after == order[m + d..] && sent0 + order[..m] + rest[..d] == sent0 + order[..m + d]
  {
    assert order[..m] + rest[..d] == order[..m + d];
    assert sent0 + order[..m] + rest[..d] == sent0 + (order[..m] + rest[..d]);
  }

  lemma BatchHeadsQueue(l: Limits, s: State, batch: seq<Record>)
    requires StorageInv(l, s) && Keyed(s.pending) && |batch| <= |s.pending.order|
    requires batch == PendingRecords(s)[..|batch|]
    ensures Ids(batch) == s.pending.order[..|batch|]
    ensures HeadsQueue(batch, s)
  {
    var ids := Ids(batch);
    forall j | 0 <= j < |ids| ensures ids[j] == s.pending.order[j] {
      assert batch[j] == PendingRecords(s)[j];
      assert s.pending.order[j] in s.pending.entries;
    }
  }

  lemma AckOutcome(l: Limits, s: State, n: nat, ack: StorageCall)
    requires ValidLimits(l) && StorageInv(l, s) && Keyed(s.pending) && n <= |s.pending.order|
    ensures var s' := AfterAck(l, s, s.pending.order[..n], ack);
            && StorageInv(l, s') && Keyed(s'.pending)
            && s'.pending.order == s.pending.order[if ack.FailsUnapplied? then 0 else n..]
  {
    AckRemovesHead(l, s, n);
    hide StorageInv, MarkDispatched;
  }

  /** What one batch that heads the queue does to the queue. */
  lemma BatchOutcome(l: Limits, s: State, ids: seq<string>, error: string, tracking: bool, w: Weather)
    requires ValidLimits(l) && StorageInv(l, s) && Keyed(s.pending)
    requires 0 < |ids| <= |s.pending.order| && ids == s.pending.order[..|ids|]
    ensures var s', d := AfterBatch(l, s, ids, error, tracking, w), DeliveredCount(|ids|, w);
            && Keyed(s'.pending)
            && (exists k: nat :: k <= d && Acknowledged(s.pending.order, s'.pending.order, k, d, s'.dead))
            && (d == |ids| && w.ack.Succeeds? ==> s'.pending.order == s.pending.order[d..])
  {
    var d := DeliveredCount(|ids|, w);
    var order := s.pending.order;
    assert ids[..d] == order[..d];
    AckOutcome(l, s, d, w.ack);
    var k: nat := if w.ack.FailsUnapplied? then 0 else d;
    var acked := AfterAck(l, s, ids[..d], w.ack);
    var s' := AfterBatch(l, s, ids, error, tracking, w);
    hide AfterAck;
    if d < |ids| && tracking && !w.transient && !w.report.FailsUnapplied? {
      var id := ids[d];
      assert acked.pending.order[d - k] == id;
      ReportOutcome(l, acked, id, error);
    }
    assert Acknowledged(order, s'.pending.order, k, d, s'.dead);
  }

  lemma {:induction false} AckKeepsDead(l: Limits, s: State, ids: seq<string>)
    requires forall id :: id in ids ==> id !in s.dead.entries
    ensures MarkDispatched(l, s, ids).dead.entries == s.dead.entries
  {
    if |ids| > 0 {
      AckKeepsDead(l, s, ids[..|ids| - 1]);
    }
  }

  lemma RestOfOrder(order: seq<string>, n: nat)
    requires Distinct(order) && n <= |order|
    ensures forall i :: 0 <= i < n ==> order[i] !in order[n..]
    ensures forall i :: n <= i < |order| ==> order[i] in order[n..]
  {
    forall i | n <= i < |order| ensures order[i] in order[n..] {
      assert order[n..][i - n] == order[i];
    }
  }

  lemma PendingIsNotDead(l: Limits, s: State, n: nat)
    requires StorageInv(l, s) && n <= |s.pending.order|
    ensures forall id :: id in s.pending.order[..n] ==> id !in s.dead.entries
    ensures Distinct(s.pending.order)
    ensures forall id :: id in s.pending.order <==> id in s.pending.entries
  {
  }

  lemma HeadIsGone(l: Limits, s: State, n: nat, after: State, error: string)
    requires n <= |s.pending.order| && Distinct(s.pending.order)
    requires forall id :: id in s.pending.order <==> id in s.pending.entries
    requires forall id :: id in s.pending.order[n..] <==> id in after.pending.entries
    requires forall id :: id in after.pending.entries ==>
               id in s.pending.entries && after.pending.entries[id] == s.pending.entries[id]
    requires after.dead.entries == s.dead.entries
    ensures Handled(l, s, after, n, None, error)
  {
    RestOfOrder(s.pending.order, n);
  }

  /** Acknowledging the first n records removes exactly those. */
  lemma AckIsHandled(l: Limits, s: State, n: nat, ack: StorageCall, error: string)
    requires ValidLimits(l) && StorageInv(l, s) && n <= |s.pending.order|
    ensures Handled(l, s, AfterAck(l, s, s.pending.order[..n], ack), if ack.FailsUnapplied? then 0 else n, None, error)
    ensures StorageInv(l, AfterAck(l, s, s.pending.order[..n], ack))
  {
    var order := s.pending.order;
    PendingIsNotDead(l, s, n);
    AckRemovesHead(l, s, n);
    AckKeepsDead(l, s, order[..n]);
    PendingIsNotDead(l, MarkDispatched(l, s, order[..n]), 0);
    hide StorageInv, MarkDispatched, Handled;
    if ack.FailsUnapplied? || n == 0 {
      assert order[0..] == order;
      HeadIsGone(l, s, 0, s, error);
    } else {
      HeadIsGone(l, s, n, MarkDispatched(l, s, order[..n]), error);
    }
  }

  lemma CountedAsBefore(l: Limits, before: State, mid: State, after: State, id: string, error: string)
    requires IsUntouched(before, mid, id) && CountsFailure(l, mid, after, id, error)
    ensures CountsFailure(l, before, after, id, error)
  {
  }

  /** Of the records behind the acknowledged head only the given one changes. */
  lemma QueueReported(s: State, mid: State, after: State, order: seq<string>, k: nat, d: nat)
    requires Distinct(order) && k <= d < |order| && QueueHandled(s, mid, order, k, None)
    requires forall x :: x != order[d] ==> (x in after.pending.entries <==> x in mid.pending.entries)
    requires forall x :: x != order[d] && x in mid.pending.entries ==>
               after.pending.entries[x] == mid.pending.entries[x]
    ensures QueueHandled(s, after, order, k, Some(d))
  {
    forall i | k <= i < |order| && i != d ensures IsUntouched(s, after, order[i]) {
      assert IsUntouched(s, mid, order[i]);
    }
    assert order[d] in order;
  }

  /** Reporting a record behind an acknowledged head counts exactly that failure. */
  lemma ReportIsHandled(l: Limits, s: State, mid: State, k: nat, d: nat, error: string)
    requires StorageInv(l, s) && StorageInv(l, mid) && Handled(l, s, mid, k, None, error)
    requires k <= d < |s.pending.order|
    ensures Handled(l, s, MarkFailed(l, mid, s.pending.order[d], error), k, Some(d), error)
  {
    var order := s.pending.order;
    var id, after := order[d], MarkFailed(l, mid, order[d], error);
    QueueIsDistinct(l, s);
    hide QueueHandled, DeadHandled, CountsFailure, Distinct;
    StillUntouched(s, mid, order, k, d);
    ReportShape(l, mid, id, error);
    FailureIsCounted(l, mid, id, error);
    hide StorageInv, MarkFailed;
    QueueReported(s, mid, after, order, k, d);
    DeadInTurn(s, mid, after, Some(id));
    CountedAsBefore(l, s, mid, after, id, error);
  }

  lemma FailureIsCounted(l: Limits, s: State, id: string, error: string)
    requires StorageInv(l, s) && id in s.pending.entries
    ensures var s' := MarkFailed(l, s, id, error);
            && CountsFailure(l, s, s', id, error)
            && DeadHandled(s, s', Some(id))
  {
  }

  /** What one batch at the head of the queue does to every record. */
  lemma BatchIsHandled(l: Limits, s: State, ids: seq<string>, error: string, tracking: bool, w: Weather)
    requires ValidLimits(l) && StorageInv(l, s)
    requires 0 < |ids| <= |s.pending.order| && ids == s.pending.order[..|ids|]
    ensures BatchHandled(l, s, AfterBatch(l, s, ids, error, tracking, w), 0, |ids|, w, tracking, error)
  {
    var d := DeliveredCount(|ids|, w);
    assert ids[..d] == s.pending.order[..d];
    AckIsHandled(l, s, d, w.ack, error);
    var mid := AfterAck(l, s, ids[..d], w.ack);
    hide StorageInv, AfterAck, Handled;
    if d < |ids| && tracking && !w.transient && !w.report.FailsUnapplied? {
      ReportIsHandled(l, s, mid, if w.ack.FailsUnapplied? then 0 else d, d, error);
    }
  }

  lemma BatchDoes(l: Limits, s: State, batch: seq<Record>, error: string, tracking: bool, w: Weather)
    requires ValidLimits(l) && StorageInv(l, s) && |batch| > 0
    ensures HeadsQueue(batch, s) ==>
              BatchHandled(l, s, AfterBatch(l, s, Ids(batch), error, tracking, w), 0, |batch|, w, tracking, error)
  {
    if HeadsQueue(batch, s) {
      BatchHeadsQueue(l, s, batch);
      BatchIsHandled(l, s, Ids(batch), error, tracking, w);
    }
  }

  lemma StreakIs(before: nat, batch: seq<Record>, w: Weather)
    ensures !(DeliveredCount(|batch|, w) == |batch| && w.ack.Succeeds?) && |batch| > 0 ==>
              StreakAfter(before, Streak(before, batch, w), batch, w)
  {
  }

  lemma ReportOutcome(l: Limits, s: State, id: string, error: string)
    requires StorageInv(l, s) && Keyed(s.pending) && id in s.pending.order
    ensures var s' := MarkFailed(l, s, id, error);
            && Keyed(s'.pending)
            && (s'.pending.order == s.pending.order
                || (s'.pending.order == Without(s.pending.order, id) && s'.dead.Has(id)))
  {
  }
}
