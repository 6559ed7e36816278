/** One dispatcher polling an outbox while producers keep adding, with a publish, an
    acknowledgement or a failure report that may fail at any point; a failed call to the
    outbox may still have taken effect. */
module DispatchProtocol {
  import opened Common
  import opened OrderedMaps
  import opened Outboxes
  import opened OutboxChain
  import opened OutboxProperties

  /** What happened so far, oldest first. Inserted: the event became pending (a new record,
      or a dead letter requeued). Published: the sink's publish resolved. Reported: a delivery
      failure was counted. */
  datatype Happening =
    | Inserted(id: string)
    | Published(id: string)
    | Reported(id: string)
    | DeadLettered(id: string)

  /** Sending: publishing the batch one by one, `delivered` resolved so far. Reporting: the
      acknowledgement is over and the failed record is still to be reported. */
  datatype Phase =
    | Idle
    | Sending(batch: seq<string>, delivered: nat, failed: bool)
    | Reporting(id: string)

  /** `slots` remembers where in the log each pending event was last inserted. */
  datatype System = System(outbox: State, log: seq<Happening>, slots: map<string, nat>, phase: Phase)

  datatype Step =
    | Accept(candidate: Candidate)
    | Poll(batchSize: nat)
    | Publish(resolves: bool)
    | Acknowledge(applied: bool)
    | Report(applied: bool, error: string)
    | Stop

  predicate Enabled(s: System, step: Step) {
    match step
    case Accept(_) => true
    case Poll(_) => s.phase.Idle?
    case Publish(_) => s.phase.Sending? && !s.phase.failed && s.phase.delivered < |s.phase.batch|
    case Acknowledge(_) =>
      s.phase.Sending? && s.phase.delivered <= |s.phase.batch| && (s.phase.failed ==>
          s.phase.delivered < |s.phase.batch|)
    case Report(_, _) => s.phase.Reporting?
    case Stop => true
  }

  predicate NewlyPending(s: State, c: Candidate) {
    !s.dispatched.Has(c.event.eventId) && !s.pending.Has(c.event.eventId)
  }

  /** One accepted or rejected candidate of an `add` call. */
  function DoAccept(l: Limits, s: System, c: Candidate): System {
    var r := AddOne(l, s.outbox, c);
    if r.Err? then s
    else if NewlyPending(s.outbox, c) then
      s.(outbox := r.value, log := s.log + [Inserted(c.event.eventId)], slots := s.slots[c.event.eventId := |s.log|])
    else s.(outbox := r.value)
  }

  function DoReport(l: Limits, s: System, id: string, error: string): System {
    var after := MarkFailed(l, s.outbox, id, error);
    if !s.outbox.pending.Has(id) then s.(outbox := after)
    else s.(outbox := after,
            log := s.log + [Reported(id)] + if after.pending.Has(id) then [] else [DeadLettered(id)])
  }

  function Next(l: Limits, s: System, step: Step): System
    requires Enabled(s, step)
  {
    match step
    case Accept(c) => DoAccept(l, s, c)
    case Poll(n) =>
      var batch := s.outbox.pending.order[..if n < |s.outbox.pending.order| then n else |s.outbox.pending.order|];
      s.(phase := if |batch| == 0 then Idle else Sending(batch, 0, false))
    case Publish(resolves) =>
      if resolves then
        s.(log := s.log + [Published(s.phase.batch[s.phase.delivered])],
           phase := s.phase.(delivered := s.phase.delivered + 1))
      else s.(phase := s.phase.(failed := true))
    case Acknowledge(applied) =>
      s.(outbox := if applied then MarkDispatched(l, s.outbox, s.phase.batch[..s.phase.delivered]) else s.outbox,
         phase := if s.phase.failed then Reporting(s.phase.batch[s.phase.delivered]) else Idle)
    case Report(applied, error) =>
      (if applied then DoReport(l, s, s.phase.id, error) else s).(phase := Idle)
    case Stop => s.(phase := Idle)
  }

  const START := System(EMPTY, [], map[], Idle)

  ghost predicate IsRun(l: Limits, steps: seq<Step>)
    decreases |steps|, 0
  {
    |steps| == 0
    || (IsRun(l, steps[..|steps| - 1]) && Enabled(Run(l, steps[..|steps| - 1]), steps[|steps| - 1]))
  }

  ghost function Run(l: Limits, steps: seq<Step>): System
    requires IsRun(l, steps)
    decreases |steps|, 1
  {
    if |steps| == 0 then START else Next(l, Run(l, steps[..|steps| - 1]), steps[|steps| - 1])
  }

  // ---- reading the log ----

  /** The insertion at m was settled before position q: published or dead-lettered in between. */
  ghost predicate SettledBetween(log: seq<Happening>, m: nat, q: nat)
    requires m < q <= |log|
  {
    exists e: nat :: m < e < q && (log[e] == Published(log[m].id) || log[e] == DeadLettered(log[m].id))
  }

  /** Position n is the last insertion of the event before position q. */
  ghost predicate LastInsertion(log: seq<Happening>, n: nat, id: string, q: nat)
    requires q <= |log|
  {
    && n < q && log[n] == Inserted(id)
    && forall k: nat :: n < k < q ==> log[k] != Inserted(id)
  }

  /** How often a failure of the event was counted after position `from`. */
  function Reports(log: seq<Happening>, id: string, from: nat): nat {
    if |log| <= from then 0
    else Reports(log[..|log| - 1], id, from) + if log[|log| - 1] == Reported(id) then 1 else 0
  }

  /** Published at q: every insertion before this one's was published or dead-lettered by then. */
  ghost predicate InTurn(log: seq<Happening>, q: nat)
    requires q < |log| && log[q].Published?
  {
    exists n: nat :: LastInsertion(log, n, log[q].id, q)
      && forall m: nat :: m < n && log[m].Inserted? ==> SettledBetween(log, m, q)
  }

  /** Dead-lettered at q: exactly as many failures were counted since its insertion as the ceiling allows. */
  ghost predicate AtCeiling(l: Limits, log: seq<Happening>, q: nat)
    requires q < |log| && log[q].DeadLettered?
  {
    exists n: nat :: LastInsertion(log, n, log[q].id, q) && Reports(log[..q], log[q].id, n) == l.maxDeliveryAttempts
  }

  ghost predicate LogOk(l: Limits, log: seq<Happening>) {
    && (forall q: nat :: q < |log| && log[q].Published? ==> InTurn(log, q))
    && (forall q: nat :: q < |log| && log[q].DeadLettered? ==> AtCeiling(l, log, q))
  }

  lemma InTurnSurvives(log: seq<Happening>, more: seq<Happening>, q: nat)
    requires q < |log| && log[q].Published? && InTurn(log, q)
    ensures InTurn(log + more, q)
  {
    var n: nat :| LastInsertion(log, n, log[q].id, q)
                  && forall m: nat :: m < n && log[m].Inserted? ==> SettledBetween(log, m, q);
    var log' := log + more;
    assert LastInsertion(log', n, log'[q].id, q);
    forall m: nat | m < n && log'[m].Inserted? ensures SettledBetween(log', m, q) {
      assert SettledBetween(log, m, q);
      var e: nat :| m < e < q && (log[e] == Published(log[m].id) || log[e] == DeadLettered(log[m].id));
      assert log'[e] == log[e];
    }
  }

  lemma AtCeilingSurvives(l: Limits, log: seq<Happening>, more: seq<Happening>, q: nat)
    requires q < |log| && log[q].DeadLettered? && AtCeiling(l, log, q)
    ensures AtCeiling(l, log + more, q)
  {
    var n: nat :| LastInsertion(log, n, log[q].id, q) && Reports(log[..q], log[q].id, n) == l.maxDeliveryAttempts;
    var log' := log + more;
    assert log'[..q] == log[..q];
    assert LastInsertion(log', n, log'[q].id, q);
  }

  lemma LogGrows(l: Limits, log: seq<Happening>, h: Happening)
    requires LogOk(l, log)
    requires h.Published? ==> InTurn(log + [h], |log|)
    requires h.DeadLettered? ==> AtCeiling(l, log + [h], |log|)
    ensures LogOk(l, log + [h])
  {
    forall q: nat | q < |log| + 1 && (log + [h])[q].Published? ensures InTurn(log + [h], q) {
      if q < |log| { InTurnSurvives(log, [h], q); }
    }
    forall q: nat | q < |log| + 1 && (log + [h])[q].DeadLettered? ensures AtCeiling(l, log + [h], q) {
      if q < |log| { AtCeilingSurvives(l, log, [h], q); }
    }
  }

  // ---- the invariant ----

  ghost predicate SlotsOk(entries: map<string, Record>, log: seq<Happening>, slots: map<string, nat>) {
    forall id :: id in entries ==>
      && id in slots && LastInsertion(log, slots[id], id, |log|)
      && entries[id].attempts == Reports(log, id, slots[id])
  }

  /** Pending order is insertion order. */
  ghost predicate OrderOk(order: seq<string>, slots: map<string, nat>) {
    && (forall i :: 0 <= i < |order| ==> order[i] in slots)
    && forall i, j :: 0 <= i < j < |order| ==> slots[order[i]] < slots[order[j]]
  }

  predicate StillPending(entries: map<string, Record>, slots: map<string, nat>, id: string, m: nat) {
    id in entries && id in slots && slots[id] == m
  }

  /** Nothing is lost: each insertion is still pending, or was published or dead-lettered. */
  ghost predicate Accounted(entries: map<string, Record>, log: seq<Happening>, slots: map<string, nat>) {
    forall m: nat :: m < |log| && log[m].Inserted? ==>
      StillPending(entries, slots, log[m].id, m) || SettledBetween(log, m, |log|)
  }

  ghost predicate PublishedSince(log: seq<Happening>, id: string, from: nat) {
    exists e: nat :: from < e < |log| && log[e] == Published(id)
  }

  /** The batch is what heads the queue; the delivered part was published since its insertion. */
  ghost predicate PhaseOk(order: seq<string>, log: seq<Happening>, slots: map<string, nat>, phase: Phase) {
    phase.Sending? ==>
      && phase.delivered <= |phase.batch| <= |order| && order[..|phase.batch|] == phase.batch
      && forall j :: 0 <= j < phase.delivered ==>
           phase.batch[j] in slots && PublishedSince(log, phase.batch[j], slots[phase.batch[j]])
  }

  ghost predicate Inv(l: Limits, s: System) {
    && StorageInv(l, s.outbox)
    && SlotsOk(s.outbox.pending.entries, s.log, s.slots)
    && OrderOk(s.outbox.pending.order, s.slots)
    && Accounted(s.outbox.pending.entries, s.log, s.slots)
    && PhaseOk(s.outbox.pending.order, s.log, s.slots, s.phase)
    && LogOk(l, s.log)
  }

  // ---- appending one happening ----

  lemma ReportsAppend(log: seq<Happening>, h: Happening, id: string, from: nat)
    requires from <= |log|
    ensures Reports(log + [h], id, from) == Reports(log, id, from) + if h == Reported(id) then 1 else 0
  {
    assert (log + [h])[..|log|] == log;
  }

  lemma {:induction false} ReportsFromEnd(log: seq<Happening>, id: string)
    ensures Reports(log, id, |log|) == 0
  {
  }

  lemma SettledSurvives(log: seq<Happening>, h: Happening, m: nat)
    requires m < |log| && SettledBetween(log, m, |log|)
    ensures SettledBetween(log + [h], m, |log| + 1)
  {
    var e: nat :| m < e < |log| && (log[e] == Published(log[m].id) || log[e] == DeadLettered(log[m].id));
    assert (log + [h])[e] == log[e];
  }

  lemma AccountedSurvives(entries: map<string, Record>, log: seq<Happening>, slots: map<string, nat>, h: Happening)
    requires Accounted(entries, log, slots) && !h.Inserted?
    ensures Accounted(entries, log + [h], slots)
  {
    var log' := log + [h];
    forall m: nat | m < |log'| && log'[m].Inserted?
      ensures StillPending(entries, slots, log'[m].id, m) || SettledBetween(log', m, |log'|) {
      assert log[m] == log'[m];
      if !StillPending(entries, slots, log[m].id, m) { SettledSurvives(log, h, m); }
    }
  }

  lemma PublishedSurvives(log: seq<Happening>, h: Happening, id: string, from: nat)
    requires PublishedSince(log, id, from)
    ensures PublishedSince(log + [h], id, from)
  {
    var e: nat :| from < e < |log| && log[e] == Published(id);
    assert (log + [h])[e] == log[e];
  }

  lemma SlotsSurvive(entries: map<string, Record>, log: seq<Happening>, slots: map<string, nat>, h: Happening)
    requires SlotsOk(entries, log, slots) && (h.Published? || h.DeadLettered?)
    ensures SlotsOk(entries, log + [h], slots)
  {
    forall id | id in entries
      ensures LastInsertion(log + [h], slots[id], id, |log| + 1)
      ensures entries[id].attempts == Reports(log + [h], id, slots[id]) {
      ReportsAppend(log, h, id, slots[id]);
    }
  }

  // ---- accepting a candidate ----

  lemma AcceptedShape(l: Limits, s: State, c: Candidate)
    requires StorageInv(l, s) && AddOne(l, s, c).Ok?
    ensures var id, s' := c.event.eventId, AddOne(l, s, c).value;
            if NewlyPending(s, c) then
              && s'.pending.order == s.pending.order + [id] && id !in s.pending.order
              && s'.pending.entries.Keys == s.pending.entries.Keys + {id}
              && s'.pending.entries[id].attempts == 0
              && (forall x :: x in s.pending.entries ==> s'.pending.entries[x] == s.pending.entries[x])
            else
              && s'.pending.order == s.pending.order
              && s'.pending.entries.Keys == s.pending.entries.Keys
              && (forall x :: x in s.pending.entries ==>
                  s'.pending.entries[x].attempts == s.pending.entries[x].attempts)
  {
  }

  lemma InsertKeepsSlots(entries: map<string, Record>, entries': map<string, Record>,
                         log: seq<Happening>, slots: map<string, nat>, id: string)
    requires SlotsOk(entries, log, slots) && id !in entries
    requires entries'.Keys == entries.Keys + {id} && entries'[id].attempts == 0
    requires forall x :: x in entries ==> entries'[x] == entries[x]
    ensures SlotsOk(entries', log + [Inserted(id)], slots[id := |log|])
  {
    var log', slots' := log + [Inserted(id)], slots[id := |log|];
    forall x | x in entries'
      ensures x in slots' && LastInsertion(log', slots'[x], x, |log'|)
      ensures entries'[x].attempts == Reports(log', x, slots'[x]) {
      ReportsAppend(log, Inserted(id), x, if x == id then |log| else slots[x]);
      ReportsFromEnd(log, x);
      if x != id {
        assert LastInsertion(log, slots[x], x, |log|);
      }
    }
  }

  lemma InsertKeepsAccounted(entries: map<string, Record>, entries': map<string, Record>,
                             log: seq<Happening>, slots: map<string, nat>, id: string)
    requires Accounted(entries, log, slots) && id !in entries
    requires entries'.Keys == entries.Keys + {id}
    ensures Accounted(entries', log + [Inserted(id)], slots[id := |log|])
  {
    var log', slots' := log + [Inserted(id)], slots[id := |log|];
    forall m: nat | m < |log'| && log'[m].Inserted?
      ensures StillPending(entries', slots', log'[m].id, m) || SettledBetween(log', m, |log'|) {
      if m < |log| {
        assert log[m] == log'[m];
        if !StillPending(entries, slots, log[m].id, m) { SettledSurvives(log, Inserted(id), m); }
      }
    }
  }

  lemma InsertKeepsPhase(order: seq<string>, log: seq<Happening>, slots: map<string, nat>, phase: Phase, id: string)
    requires PhaseOk(order, log, slots, phase) && id !in order
    ensures PhaseOk(order + [id], log + [Inserted(id)], slots[id := |log|], phase)
  {
    if phase.Sending? {
      assert (order + [id])[..|phase.batch|] == order[..|phase.batch|];
      forall j | 0 <= j < phase.delivered
        ensures PublishedSince(log + [Inserted(id)], phase.batch[j], slots[id := |log|][phase.batch[j]]) {
        assert phase.batch[j] == order[j];
        PublishedSurvives(log, Inserted(id), phase.batch[j], slots[phase.batch[j]]);
      }
    }
  }

  lemma AcceptKeepsInv(l: Limits, s: System, c: Candidate)
    requires ValidLimits(l) && Inv(l, s)
    ensures Inv(l, DoAccept(l, s, c))
  {
    var r := AddOne(l, s.outbox, c);
    if r.Ok? {
      AcceptedShape(l, s.outbox, c);
      AddOneKeepsStorage(l, s.outbox, c);
      hide StorageInv, AddOne;
      if NewlyPending(s.outbox, c) {
        var id := c.event.eventId;
        InsertKeepsSlots(s.outbox.pending.entries, r.value.pending.entries, s.log, s.slots, id);
        InsertKeepsAccounted(s.outbox.pending.entries, r.value.pending.entries, s.log, s.slots, id);
        InsertKeepsPhase(s.outbox.pending.order, s.log, s.slots, s.phase, id);
        LogGrows(l, s.log, Inserted(id));
        InsertKeepsOrder(l, s, id);
      } else {
        SameEntriesAccounted(s.outbox.pending.entries, r.value.pending.entries, s.log, s.slots);
      }
    }
  }

  lemma InsertKeepsOrder(l: Limits, s: System, id: string)
    requires Inv(l, s) && id !in s.outbox.pending.order
    ensures OrderOk(s.outbox.pending.order + [id], s.slots[id := |s.log|])
  {
    var order := s.outbox.pending.order;
    forall i | 0 <= i < |order| ensures s.slots[order[i]] < |s.log| {
      assert order[i] in s.outbox.pending.entries;
    }
  }

  lemma SameEntriesAccounted(entries: map<string, Record>, entries': map<string, Record>,
                             log: seq<Happening>, slots: map<string, nat>)
    requires SlotsOk(entries, log, slots) && Accounted(entries, log, slots)
    requires entries'.Keys == entries.Keys
    requires forall x :: x in entries ==> entries'[x].attempts == entries[x].attempts
    ensures SlotsOk(entries', log, slots) && Accounted(entries', log, slots)
  {
    assert forall x :: x in entries' ==> x in entries;
    forall m: nat | m < |log| && log[m].Inserted?
      ensures StillPending(entries', slots, log[m].id, m) || SettledBetween(log, m, |log|) {
      assert StillPending(entries, slots, log[m].id, m) || SettledBetween(log, m, |log|);
    }
  }

  // ---- publishing ----

  lemma NextIsStored(l: Limits, s: System)
    requires Inv(l, s) && s.phase.Sending? && s.phase.delivered < |s.phase.batch|
    ensures var id := s.phase.batch[s.phase.delivered];
            && s.phase.delivered < |s.outbox.pending.order| && id == s.outbox.pending.order[s.phase.delivered]
            && id in s.slots && LastInsertion(s.log, s.slots[id], id, |s.log|)
  {
    assert s.phase.batch[s.phase.delivered] == s.outbox.pending.order[s.phase.delivered];
    assert s.phase.batch[s.phase.delivered] in s.outbox.pending.entries;
  }

  /** A queued record inserted before the next one of the batch was delivered in this batch. */
  lemma EarlierWasDelivered(order: seq<string>, log: seq<Happening>, slots: map<string, nat>, phase: Phase, i: nat)
    requires OrderOk(order, slots) && PhaseOk(order, log, slots, phase)
    requires phase.Sending? && phase.delivered < |phase.batch| && i < |order|
    requires slots[order[i]] < slots[order[phase.delivered]]
    ensures PublishedSince(log, order[i], slots[order[i]])
  {
    assert i < phase.delivered;
    assert order[i] == order[..|phase.batch|][i] == phase.batch[i];
  }

  lemma EarlierIsSettled(l: Limits, s: System, m: nat)
    requires Inv(l, s) && s.phase.Sending? && s.phase.delivered < |s.phase.batch|
    requires s.phase.batch[s.phase.delivered] in s.slots
    requires m < |s.log| && m < s.slots[s.phase.batch[s.phase.delivered]] && s.log[m].Inserted?
    ensures SettledBetween(s.log, m, |s.log|)
  {
    NextIsStored(l, s);
    var order, x := s.outbox.pending.order, s.log[m].id;
    assert StillPending(s.outbox.pending.entries, s.slots, x, m) ==> x in order;
    hide StorageInv, SlotsOk, LogOk, LastInsertion;
    if StillPending(s.outbox.pending.entries, s.slots, x, m) {
      var i: nat :| i < |order| && order[i] == x;
      EarlierWasDelivered(order, s.log, s.slots, s.phase, i);
      hide OrderOk, PhaseOk, Accounted;
      assert PublishedSince(s.log, x, m);
    }
  }

  /** The next record of the batch comes after nothing unsettled. */
  lemma NextIsInTurn(l: Limits, s: System)
    requires Inv(l, s) && s.phase.Sending? && s.phase.delivered < |s.phase.batch|
    ensures InTurn(s.log + [Published(s.phase.batch[s.phase.delivered])], |s.log|)
  {
    NextIsStored(l, s);
    var id := s.phase.batch[s.phase.delivered];
    var n := s.slots[id];
    forall m: nat | m < n && s.log[m].Inserted? ensures SettledBetween(s.log, m, |s.log|) {
      EarlierIsSettled(l, s, m);
    }
    hide Inv, PhaseOk;
    TurnAppended(s.log, n, id);
  }

  lemma TurnAppended(log: seq<Happening>, n: nat, id: string)
    requires LastInsertion(log, n, id, |log|)
    requires forall m: nat :: m < n && log[m].Inserted? ==> SettledBetween(log, m, |log|)
    ensures InTurn(log + [Published(id)], |log|)
  {
    var log' := log + [Published(id)];
    assert log'[|log|] == Published(id);
    assert LastInsertion(log', n, log'[|log|].id, |log|);
    forall m: nat | m < n && log'[m].Inserted? ensures SettledBetween(log', m, |log|) {
      assert SettledBetween(log, m, |log|);
      var e: nat :| m < e < |log| && (log[e] == Published(log[m].id) || log[e] == DeadLettered(log[m].id));
      assert log'[e] == log[e];
    }
  }

  lemma PublishKeepsInv(l: Limits, s: System, resolves: bool)
    requires Inv(l, s) && Enabled(s, Publish(resolves))
    ensures Inv(l, Next(l, s, Publish(resolves)))
  {
    if resolves {
      var id := s.phase.batch[s.phase.delivered];
      var h := Published(id);
      NextIsInTurn(l, s);
      LogGrows(l, s.log, h);
      SlotsSurvive(s.outbox.pending.entries, s.log, s.slots, h);
      AccountedSurvives(s.outbox.pending.entries, s.log, s.slots, h);
      assert id == s.outbox.pending.order[s.phase.delivered];
      assert id in s.outbox.pending.entries;
      DeliveredGrows(s);
    }
  }

  lemma DeliveredGrows(s: System)
    requires PhaseOk(s.outbox.pending.order, s.log, s.slots, s.phase)
    requires s.phase.Sending? && s.phase.delivered < |s.phase.batch|
    requires s.phase.batch[s.phase.delivered] in s.slots && s.slots[s.phase.batch[s.phase.delivered]] < |s.log|
    ensures PhaseOk(s.outbox.pending.order, s.log + [Published(s.phase.batch[s.phase.delivered])], s.slots,
                    s.phase.(delivered := s.phase.delivered + 1))
  {
    var d := s.phase.delivered;
    var h := Published(s.phase.batch[d]);
    forall j | 0 <= j < d + 1 ensures PublishedSince(s.log + [h], s.phase.batch[j], s.slots[s.phase.batch[j]]) {
      if j < d {
        PublishedSurvives(s.log, h, s.phase.batch[j], s.slots[s.phase.batch[j]]);
      } else {
        assert (s.log + [h])[|s.log|] == h;
      }
    }
  }

  // ---- acknowledging ----

  lemma {:induction false} WithoutHead(order: seq<string>)
    requires |order| > 0 && Distinct(order)
    ensures Without(order, order[0]) == order[1..]
  {
    WithoutAbsent(order[1..], order[0]);
  }

  /** Marking the first record of the queue removes it and nothing else. */
  lemma MarkHead(l: Limits, s: State)
    requires ValidLimits(l) && StorageInv(l, s) && |s.pending.order| > 0
    ensures var s' := MarkOneDispatched(l, s, s.pending.order[0]);
            && StorageInv(l, s')
            && s'.pending.order == s.pending.order[1..]
            && s'.pending.entries == s.pending.entries - {s.pending.order[0]}
  {
    MarkOneDispatchedStorage(l.(maxRecords := None, maxSources := None), s, s.pending.order[0]);
    assert Distinct(s.pending.order);
    WithoutHead(s.pending.order);
  }

  /** Acknowledging a head of the queue removes exactly that head. */
  lemma {:induction false} AckRemovesHead(l: Limits, s: State, n: nat)
    requires ValidLimits(l) && StorageInv(l, s) && n <= |s.pending.order|
    ensures var s' := MarkDispatched(l, s, s.pending.order[..n]);
            && StorageInv(l, s')
            && s'.pending.order == s.pending.order[n..]
            && (forall id :: id in s'.pending.entries ==>
                id in s.pending.entries && s'.pending.entries[id] == s.pending.entries[id])
            && (forall id :: id in s.pending.entries ==> id in s'.pending.entries || id in s.pending.order[..n])
  {
    hide StorageInv;
    if n > 0 {
      var order := s.pending.order;
      assert order[..n][..n - 1] == order[..n - 1];
      AckRemovesHead(l, s, n - 1);
      MarkHead(l, MarkDispatched(l, s, order[..n - 1]));
      hide MarkOneDispatched;
      assert order[n - 1] in order[..n];
      assert forall id :: id in order[..n - 1] ==> id in order[..n];
    }
  }

  lemma AckKeepsAccounted(entries: map<string, Record>, entries': map<string, Record>, order: seq<string>,
                          log: seq<Happening>, slots: map<string, nat>, phase: Phase)
    requires Accounted(entries, log, slots) && PhaseOk(order, log, slots, phase) && phase.Sending?
    requires forall id :: id in entries ==> id in entries' || id in order[..phase.delivered]
    ensures Accounted(entries', log, slots)
  {
    forall m: nat | m < |log| && log[m].Inserted?
      ensures StillPending(entries', slots, log[m].id, m) || SettledBetween(log, m, |log|) {
      var x := log[m].id;
      assert StillPending(entries, slots, x, m) || SettledBetween(log, m, |log|);
      if StillPending(entries, slots, x, m) && x !in entries' {
        var j: nat :| j < phase.delivered && order[..phase.delivered][j] == x;
        assert order[..|phase.batch|][j] == x;
        assert PublishedSince(log, phase.batch[j], slots[phase.batch[j]]);
      }
    }
  }

  lemma SlotsShrink(entries: map<string, Record>, entries': map<string, Record>, log: seq<Happening>,
                    slots: map<string, nat>)
    requires SlotsOk(entries, log, slots)
    requires forall id :: id in entries' ==> id in entries && entries'[id] == entries[id]
    ensures SlotsOk(entries', log, slots)
  {
  }

  lemma OrderDrop(order: seq<string>, slots: map<string, nat>, n: nat)
    requires OrderOk(order, slots) && n <= |order|
    ensures OrderOk(order[n..], slots)
  {
  }

  lemma AckKeepsQueue(l: Limits, s: System)
    requires ValidLimits(l) && Inv(l, s) && Enabled(s, Acknowledge(true))
    ensures var outbox' := MarkDispatched(l, s.outbox, s.phase.batch[..s.phase.delivered]);
            && StorageInv(l, outbox')
            && SlotsOk(outbox'.pending.entries, s.log, s.slots)
            && OrderOk(outbox'.pending.order, s.slots)
            && Accounted(outbox'.pending.entries, s.log, s.slots)
  {
    var order, n := s.outbox.pending.order, s.phase.delivered;
    var outbox' := MarkDispatched(l, s.outbox, s.phase.batch[..n]);
    assert order[..n] == s.phase.batch[..n];
    hide StorageInv, MarkDispatched, SlotsOk, Accounted, LogOk, OrderOk;
    AckRemovesHead(l, s.outbox, n);
    SlotsShrink(s.outbox.pending.entries, outbox'.pending.entries, s.log, s.slots);
    AckKeepsAccounted(s.outbox.pending.entries, outbox'.pending.entries, order, s.log, s.slots, s.phase);
    OrderDrop(order, s.slots, n);
  }

  lemma AckKeepsInv(l: Limits, s: System, applied: bool)
    requires ValidLimits(l) && Inv(l, s) && Enabled(s, Acknowledge(applied))
    ensures Inv(l, Next(l, s, Acknowledge(applied)))
  {
    if applied {
      AckKeepsQueue(l, s);
    }
    hide StorageInv, MarkDispatched, SlotsOk, Accounted, LogOk, OrderOk;
  }

  // ---- reporting ----

  lemma ReportShape(l: Limits, s: State, id: string, error: string)
    requires StorageInv(l, s) && s.pending.Has(id)
    ensures var s' := MarkFailed(l, s, id, error);
            var attempts := s.pending.entries[id].attempts + 1;
            && s'.pending.Has(id) == (attempts < l.maxDeliveryAttempts)
            && attempts <= l.maxDeliveryAttempts
            && (s'.pending.Has(id) ==>
                s'.pending.entries[id].attempts == attempts && s'.pending.order == s.pending.order)
            && (!s'.pending.Has(id) ==> s'.pending.order == Without(s.pending.order, id))
            && (forall x :: x != id ==> (x in s'.pending.entries <==> x in s.pending.entries))
            && (forall x :: x != id && x in s.pending.entries ==> s'.pending.entries[x] == s.pending.entries[x])
  {
  }

  lemma {:induction false} WithoutKeepsOrder(order: seq<string>, id: string, slots: map<string, nat>)
    requires OrderOk(order, slots)
    ensures OrderOk(Without(order, id), slots)
    ensures forall x :: x in Without(order, id) ==> x in order
  {
    if |order| > 0 {
      var rest := order[1..];
      WithoutKeepsOrder(rest, id, slots);
      var tail := Without(rest, id);
      forall i | 0 <= i < |tail| ensures slots[order[0]] < slots[tail[i]] {
        assert tail[i] in rest;
      }
    }
  }

  lemma ReportedSlots(entries: map<string, Record>, entries': map<string, Record>,
                      log: seq<Happening>, slots: map<string, nat>, id: string)
    requires SlotsOk(entries, log, slots) && id in entries
    requires forall x :: x in entries' && x != id ==> x in entries && entries'[x] == entries[x]
    requires id in entries' ==> entries'[id].attempts == entries[id].attempts + 1
    ensures SlotsOk(entries', log + [Reported(id)], slots)
    ensures LastInsertion(log + [Reported(id)], slots[id], id, |log| + 1)
    ensures Reports(log + [Reported(id)], id, slots[id]) == entries[id].attempts + 1
  {
    ReportedSlot(log, slots[id], id, id);
    hide Reports, LastInsertion;
    forall x | x in entries'
      ensures LastInsertion(log + [Reported(id)], slots[x], x, |log| + 1)
      ensures entries'[x].attempts == Reports(log + [Reported(id)], x, slots[x]) {
      ReportedSlot(log, slots[x], x, id);
    }
  }

  lemma ReportedSlot(log: seq<Happening>, slot: nat, x: string, id: string)
    requires LastInsertion(log, slot, x, |log|)
    ensures LastInsertion(log + [Reported(id)], slot, x, |log| + 1)
    ensures Reports(log + [Reported(id)], x, slot) == Reports(log, x, slot) + (if x == id then 1 else 0)
  {
    ReportsAppend(log, Reported(id), x, slot);
  }

  lemma DeadIsAtCeiling(l: Limits, log: seq<Happening>, id: string, slot: nat)
    requires LastInsertion(log, slot, id, |log|)
    requires Reports(log, id, slot) == l.maxDeliveryAttempts
    ensures AtCeiling(l, log + [DeadLettered(id)], |log|)
  {
    var log' := log + [DeadLettered(id)];
    assert log'[..|log|] == log;
    assert log'[|log|] == DeadLettered(id);
    assert LastInsertion(log', slot, log'[|log|].id, |log|);
  }

  /** What the invariant says of the log and the queue once a report is logged. */
  lemma ReportedLog(l: Limits, s: System, id: string, error: string)
    requires Inv(l, s) && s.outbox.pending.Has(id)
    ensures LogOk(l, s.log + [Reported(id)])
    ensures !MarkFailed(l, s.outbox, id, error).pending.Has(id) ==>
              LogOk(l, s.log + [Reported(id)] + [DeadLettered(id)])
  {
    ReportShape(l, s.outbox, id, error);
    var entries' := MarkFailed(l, s.outbox, id, error).pending.entries;
    hide StorageInv, MarkFailed, OrderOk, Accounted, PhaseOk;
    ReportedSlots(s.outbox.pending.entries, entries', s.log, s.slots, id);
    hide SlotsOk;
    LogGrows(l, s.log, Reported(id));
    hide LogOk;
    var log1 := s.log + [Reported(id)];
    if !MarkFailed(l, s.outbox, id, error).pending.Has(id) {
      DeadIsAtCeiling(l, log1, id, s.slots[id]);
      LogGrows(l, log1, DeadLettered(id));
    }
  }

  lemma ReportedAccounted(l: Limits, s: System, id: string, error: string)
    requires Inv(l, s) && s.outbox.pending.Has(id)
    ensures var s' := DoReport(l, s, id, error);
            Accounted(s'.outbox.pending.entries, s'.log, s'.slots)
  {
    ReportShape(l, s.outbox, id, error);
    var s' := DoReport(l, s, id, error);
    var log1 := s.log + [Reported(id)];
    AccountedSurvives(s.outbox.pending.entries, s.log, s.slots, Reported(id));
    hide StorageInv, MarkFailed, SlotsOk, OrderOk, PhaseOk, LogOk;
    if s'.outbox.pending.Has(id) {
      assert s'.log == log1;
      forall m: nat | m < |log1| && log1[m].Inserted?
        ensures StillPending(s'.outbox.pending.entries, s.slots, log1[m].id, m) || SettledBetween(log1, m, |log1|) {
        assert StillPending(s.outbox.pending.entries, s.slots, log1[m].id, m) || SettledBetween(log1, m, |log1|);
      }
    } else {
      AccountedSurvives(s.outbox.pending.entries, log1, s.slots, DeadLettered(id));
      var log2 := log1 + [DeadLettered(id)];
      assert log2[|log1|] == DeadLettered(id);
      forall m: nat | m < |log2| && log2[m].Inserted?
        ensures StillPending(s'.outbox.pending.entries, s.slots, log2[m].id, m) || SettledBetween(log2, m, |log2|) {
        assert StillPending(s.outbox.pending.entries, s.slots, log2[m].id, m) || SettledBetween(log2, m, |log2|);
      }
    }
  }

  lemma ReportKeepsSlots(l: Limits, s: System, id: string, error: string)
    requires Inv(l, s) && s.outbox.pending.Has(id)
    ensures var s' := DoReport(l, s, id, error);
            SlotsOk(s'.outbox.pending.entries, s'.log, s'.slots) && OrderOk(s'.outbox.pending.order, s'.slots)
  {
    hide StorageInv, MarkFailed, Accounted, LogOk, OrderOk, SlotsOk;
    ReportShape(l, s.outbox, id, error);
    var s' := DoReport(l, s, id, error);
    WithoutKeepsOrder(s.outbox.pending.order, id, s.slots);
    ReportedSlots(s.outbox.pending.entries, s'.outbox.pending.entries, s.log, s.slots, id);
    if !s'.outbox.pending.Has(id) {
      SlotsSurvive(s'.outbox.pending.entries, s.log + [Reported(id)], s.slots, DeadLettered(id));
    } else {
      assert s'.log == s.log + [Reported(id)];
    }
  }

  lemma ReportKeepsStorage(l: Limits, s: State, id: string, error: string)
    requires ValidLimits(l) && StorageInv(l, s)
    ensures StorageInv(l, MarkFailed(l, s, id, error))
  {
    var roomy := l.(maxRecords := None, maxSources := None);
    MarkFailedStorage(roomy, s, id, error);
    assert MarkFailed(roomy, s, id, error) == MarkFailed(l, s, id, error);
  }

  lemma ReportKeepsLog(l: Limits, s: System, id: string, error: string)
    requires Inv(l, s) && s.outbox.pending.Has(id)
    ensures LogOk(l, DoReport(l, s, id, error).log)
  {
    ReportedLog(l, s, id, error);
    hide Inv, MarkFailed, LogOk;
    assert s.log + [Reported(id)] + [] == s.log + [Reported(id)];
  }

  lemma ReportKeepsInv(l: Limits, s: System, id: string, error: string)
    requires ValidLimits(l) && Inv(l, s) && s.phase.Idle?
    ensures Inv(l, DoReport(l, s, id, error))
  {
    hide StorageInv, MarkFailed, LogOk, Accounted, SlotsOk, OrderOk;
    if s.outbox.pending.Has(id) {
      ReportKeepsStorage(l, s.outbox, id, error);
      ReportKeepsLog(l, s, id, error);
      ReportedAccounted(l, s, id, error);
      ReportKeepsSlots(l, s, id, error);
    } else {
      assert MarkFailed(l, s.outbox, id, error) == s.outbox by { UnknownReport(l, s.outbox, id, error); }
    }
  }

  lemma UnknownReport(l: Limits, s: State, id: string, error: string)
    requires !s.pending.Has(id)
    ensures MarkFailed(l, s, id, error) == s
  {
  }

  // ---- every step, every run ----

  lemma StepKeepsInv(l: Limits, s: System, step: Step)
    requires ValidLimits(l) && Inv(l, s) && Enabled(s, step)
    ensures Inv(l, Next(l, s, step))
  {
    hide StorageInv, SlotsOk, OrderOk, Accounted, LogOk;
    match step
    case Accept(c) => AcceptKeepsInv(l, s, c);
    case Poll(_) =>
    case Publish(resolves) => PublishKeepsInv(l, s, resolves);
    case Acknowledge(applied) => AckKeepsInv(l, s, applied);
    case Report(applied, error) =>
      if applied {
        ReportKeepsInv(l, s.(phase := Idle), s.phase.id, error);
        assert Next(l, s, step) == DoReport(l, s.(phase := Idle), s.phase.id, error);
      }
    case Stop =>
  }

  lemma {:induction false} RunKeepsInv(l: Limits, steps: seq<Step>)
    requires ValidLimits(l) && IsRun(l, steps)
    ensures Inv(l, Run(l, steps))
  {
    if |steps| > 0 {
      RunKeepsInv(l, steps[..|steps| - 1]);
      StepKeepsInv(l, Run(l, steps[..|steps| - 1]), steps[|steps| - 1]);
    }
  }

  // ---- what the dispatcher promises ----

  /** Whenever a record is published, every record inserted before it was already published
      or dead-lettered since. */
  lemma PublishedInInsertionOrder(l: Limits, steps: seq<Step>, q: nat)
    requires ValidLimits(l) && IsRun(l, steps)
    requires q < |Run(l, steps).log| && Run(l, steps).log[q].Published?
    ensures InTurn(Run(l, steps).log, q)
  {
    RunKeepsInv(l, steps);
  }

  /** Nothing is lost: every insertion is still pending or was published or dead-lettered since. */
  lemma LeavesOnlyPublishedOrDead(l: Limits, steps: seq<Step>, m: nat)
    requires ValidLimits(l) && IsRun(l, steps)
    requires m < |Run(l, steps).log| && Run(l, steps).log[m].Inserted?
    ensures var s := Run(l, steps);
            StillPending(s.outbox.pending.entries, s.slots, s.log[m].id, m) || SettledBetween(s.log, m, |s.log|)
  {
    RunKeepsInv(l, steps);
  }

  /** A record is dead-lettered only when the failures counted since its insertion reach the ceiling. */
  lemma DeadOnlyAtCeiling(l: Limits, steps: seq<Step>, q: nat)
    requires ValidLimits(l) && IsRun(l, steps)
    requires q < |Run(l, steps).log| && Run(l, steps).log[q].DeadLettered?
    ensures AtCeiling(l, Run(l, steps).log, q)
  {
    RunKeepsInv(l, steps);
  }
}
