/** The composition: an outbox that finalises a commit chain, and a projector fed envelopes of
    that chain in any order, with any repeats, omissions and failures. */
module Pipeline {
  import opened Common
  import opened Outboxes
  import opened OutboxChain
  import opened OutboxProperties
  import opened Projections
  import opened ProjectionProperties

  /** The items of one address, in order. */
  function For(a: Address, log: seq<Item>): seq<Item> {
    if |log| == 0 then []
    else if log[|log| - 1].address == a then For(a, log[..|log| - 1]) + [log[|log| - 1]]
    else For(a, log[..|log| - 1])
  }

  ghost predicate ItemFinalized(h: History, i: Item) {
    IsProjectable(i) && Finalized(h, i.address, i.event.eventId, i.position)
  }

  function PositionBefore(l: seq<Item>, i: nat): Option<Position>
    requires i <= |l|
  {
    if i == 0 then None else Some(l[i - 1].position)
  }

  /** Item i continues the items before it. */
  predicate Follows(l: seq<Item>, i: nat)
    requires i < |l|
  {
    IsContiguous(l[i].position, PositionBefore(l, i))
  }

  /** Applied positions follow each other without a gap, from genesis. */
  ghost predicate Gapless(l: seq<Item>) {
    forall i :: 0 <= i < |l| ==> Follows(l, i)
  }

  /** The checkpoint names exactly the last applied event; no checkpoint, nothing applied. */
  ghost predicate CheckpointIsLast(c: Checkpoints, a: Address, l: seq<Item>) {
    && (a in c <==> |l| > 0)
    && (|l| > 0 ==> c[a] == Checkpoint(l[|l| - 1].position, l[|l| - 1].event.eventId))
  }

  ghost predicate AddressInv(h: History, c: Checkpoints, a: Address, l: seq<Item>) {
    && Gapless(l)
    && CheckpointIsLast(c, a, l)
    && forall i :: 0 <= i < |l| ==> l[i].address == a && ItemFinalized(h, l[i])
  }

  ghost predicate ProjectionInv(h: History, c: Checkpoints, log: seq<Item>) {
    forall a :: AddressInv(h, c, a, For(a, log))
  }

  // ---- facts about a gapless applied sequence ----

  lemma GaplessStepIsLater(l: seq<Item>, i: nat)
    requires Gapless(l) && 0 < i < |l| && IsValidPosition(l[i].position)
    ensures IsPositionAfter(l[i].position, l[i - 1].position)
  {
    assert Follows(l, i);
  }

  lemma AfterTransitive(a: Position, b: Position, c: Position)
    requires IsPositionAfter(a, b) && IsPositionAfter(b, c)
    ensures IsPositionAfter(a, c)
  {
  }

  /** Each applied position is strictly later than every one before it: nothing is applied twice. */
  lemma {:induction false} AppliedIncreases(l: seq<Item>, i: nat, j: nat)
    requires Gapless(l) && i < j < |l|
    requires forall k :: 0 <= k < |l| ==> IsValidPosition(l[k].position)
    ensures IsPositionAfter(l[j].position, l[i].position)
    decreases j - i
  {
    GaplessStepIsLater(l, j);
    if i + 1 < j {
      AppliedIncreases(l, i, j - 1);
      AfterTransitive(l[j].position, l[j - 1].position, l[i].position);
    }
  }

  /** A finalised event not past the last applied one is that one, or not past the one before. */
  lemma LastOrEarlier(s: State, h: History, a: Address, l: seq<Item>, id: string, p: Position)
    requires HeadsAreLast(s.cursors, h) && |l| > 0 && Follows(l, |l| - 1)
    requires Finalized(h, a, l[|l| - 1].event.eventId, l[|l| - 1].position)
    requires Finalized(h, a, id, p) && IsValidPosition(p)
    requires |l| > 1 ==> Finalized(h, a, l[|l| - 2].event.eventId, l[|l| - 2].position)
    requires !IsPositionAfter(p, l[|l| - 1].position)
    ensures || (l[|l| - 1].event.eventId == id && l[|l| - 1].position == p)
            || (|l| > 1 && !IsPositionAfter(p, l[|l| - 2].position))
  {
    var last := l[|l| - 1];
    if p.aggregateVersion == last.position.aggregateVersion {
      PositionIdentifiesEvent(s, h, a, last.event.eventId, last.position, id, p);
    } else {
      PredecessorIsAdjacent(s, h, a, last.event.eventId, last.position, id, p);
      var prior := l[|l| - 2];
      if p.aggregateVersion == prior.position.aggregateVersion {
        PositionIdentifiesEvent(s, h, a, prior.event.eventId, prior.position, id, p);
      }
    }
  }

  lemma GaplessPrefix(l: seq<Item>, n: nat)
    requires Gapless(l) && n <= |l|
    ensures Gapless(l[..n])
  {
    forall i | 0 <= i < n ensures Follows(l[..n], i) {
      assert Follows(l, i);
    }
  }

  /** The applied events are a prefix of the chain: every finalised event at or before the
      last applied position is itself applied. */
  lemma {:induction false} AppliedIsPrefix(s: State, h: History, a: Address, l: seq<Item>, id: string, p: Position)
    requires HeadsAreLast(s.cursors, h) && Gapless(l) && |l| > 0
    requires forall i :: 0 <= i < |l| ==> Finalized(h, a, l[i].event.eventId, l[i].position)
    requires Finalized(h, a, id, p) && IsValidPosition(p)
    requires !IsPositionAfter(p, l[|l| - 1].position)
    ensures exists i :: 0 <= i < |l| && l[i].event.eventId == id && l[i].position == p
    decreases |l|
  {
    hide Finalized;
    var n := |l| - 1;
    LastOrEarlier(s, h, a, l, id, p);
    if !(l[n].event.eventId == id && l[n].position == p) {
      var before := l[..n];
      GaplessPrefix(l, n);
      AppliedIsPrefix(s, h, a, before, id, p);
      var i :| 0 <= i < n && before[i].event.eventId == id && before[i].position == p;
      assert l[i] == before[i];
    }
  }

  // ---- one batch keeps the invariant ----

  lemma ForAppend(a: Address, log: seq<Item>, i: Item)
    ensures For(a, log + [i]) == if i.address == a then For(a, log) + [i] else For(a, log)
  {
    assert (log + [i])[..|log|] == log;
  }

  lemma GaplessAppend(l: seq<Item>, i: Item)
    requires Gapless(l)
    requires IsContiguous(i.position, PositionBefore(l, |l|))
    ensures Gapless(l + [i])
  {
    forall k | 0 <= k < |l| + 1 ensures Follows(l + [i], k) {
      if k < |l| {
        assert Follows(l, k);
      }
    }
  }

  lemma ApplyKeepsAddress(h: History, c: Checkpoints, log: seq<Item>, i: Item, a: Address)
    requires AddressInv(h, c, a, For(a, log))
    requires Extends(c, i) && ItemFinalized(h, i)
    ensures AddressInv(h, Apply(c, i), a, For(a, log + [i]))
  {
    ForAppend(a, log, i);
    if i.address == a {
      GaplessAppend(For(a, log), i);
    }
  }

  lemma {:induction false} AdvanceKeepsInv(h: History, c: Checkpoints, log: seq<Item>, items: seq<Item>)
    requires ProjectionInv(h, c, log)
    requires forall i :: 0 <= i < |items| ==> ItemFinalized(h, items[i])
    requires AdvanceAll(c, items).Advanced?
    ensures ProjectionInv(h, AdvanceAll(c, items).checkpoints, log + AdvanceAll(c, items).applied)
  {
    if |items| == 0 {
      assert log + [] == log;
    } else {
      var init, i := items[..|items| - 1], items[|items| - 1];
      PrefixAdvances(c, items, |items| - 1);
      AdvanceKeepsInv(h, c, log, init);
      var r := AdvanceAll(c, init);
      if Extends(r.checkpoints, i) {
        forall a ensures AddressInv(h, Apply(r.checkpoints, i), a, For(a, log + (r.applied + [i]))) {
          assert log + (r.applied + [i]) == (log + r.applied) + [i];
          assert AddressInv(h, r.checkpoints, a, For(a, log + r.applied));
          ApplyKeepsAddress(h, r.checkpoints, log + r.applied, i, a);
        }
      }
    }
  }

  lemma HistoryGrowthKeepsInv(h: History, h': History, c: Checkpoints, log: seq<Item>)
    requires ProjectionInv(h, c, log) && Grows(h, h')
    ensures ProjectionInv(h', c, log)
  {
    forall a ensures AddressInv(h', c, a, For(a, log)) {
      var l := For(a, log);
      assert AddressInv(h, c, a, l);
      forall i | 0 <= i < |l| ensures ItemFinalized(h', l[i]) {
        GrowsKeepsFinalized(h, h', a, l[i].event.eventId, l[i].position);
      }
    }
  }

  // ---- whole runs ----

  /** `history` is every commit the outbox ever finalised; `log` is every event applied since the
      last reset, in order. */
  datatype System = System(
    outbox: State,
    history: History,
    checkpoints: Checkpoints,
    log: seq<Item>)

  datatype Action =
    | AddEvents(candidates: seq<Candidate>)
    | Acknowledge(ids: seq<string>)
    | ReportFailure(id: string, error: string)
    | Deliver(envelopes: seq<Envelope>, handlerThrows: bool)
    | ResetProjection

  const START := System(EMPTY, map[], map[], [])

  /** The envelope carries a position the outbox finalised for that event. */
  ghost predicate FromChain(h: History, e: Envelope) {
    && e.source.Some?
    && e.position.Some?
    && Finalized(h, e.source.value, e.event.eventId, e.position.value)
  }

  /** What the surroundings promise: no leaked commit is re-added at another version, and the
      feed carries only envelopes of the outbox. Order, repeats and omissions are free. */
  ghost predicate Allowed(s: System, a: Action) {
    match a
    case AddEvents(cs) => NoRefresh(s.outbox, cs)
    case Deliver(es, _) => forall i :: 0 <= i < |es| ==> FromChain(s.history, es[i])
    case _ => true
  }

  ghost predicate DeliveryCommits(s: System, a: Action)
    requires a.Deliver?
  {
    !a.handlerThrows && ToItems(a.envelopes).Ok? && Accepts(s.checkpoints, ToItems(a.envelopes).value)
  }

  ghost function Step(l: Limits, s: System, a: Action): System {
    match a
    case AddEvents(cs) =>
      s.(outbox := Add(l, s.outbox, cs).state, history := AddHistory(l, s.outbox, s.history, cs))
    case Acknowledge(ids) => s.(outbox := MarkDispatched(l, s.outbox, ids))
    case ReportFailure(id, error) => s.(outbox := MarkFailed(l, s.outbox, id, error))
    case Deliver(es, _) =>
      if DeliveryCommits(s, a) then
        var r := AdvanceAll(s.checkpoints, ToItems(es).value);
        s.(checkpoints := r.checkpoints, log := s.log + r.applied)
      else s
    case ResetProjection => s.(checkpoints := map[], log := [])
  }

  ghost function Run(l: Limits, actions: seq<Action>): System {
    if |actions| == 0 then START
    else Step(l, Run(l, actions[..|actions| - 1]), actions[|actions| - 1])
  }

  ghost predicate AllowedRun(l: Limits, actions: seq<Action>) {
    |actions| > 0 ==>
      && AllowedRun(l, actions[..|actions| - 1])
      && Allowed(Run(l, actions[..|actions| - 1]), actions[|actions| - 1])
  }

  ghost predicate SystemInv(l: Limits, s: System) {
    Inv(l, s.outbox, s.history) && ProjectionInv(s.history, s.checkpoints, s.log)
  }

  lemma DeliveryKeepsInv(s: System, a: Action)
    requires ProjectionInv(s.history, s.checkpoints, s.log)
    requires a.Deliver? && Allowed(s, a) && DeliveryCommits(s, a)
    ensures var r := AdvanceAll(s.checkpoints, ToItems(a.envelopes).value);
            ProjectionInv(s.history, r.checkpoints, s.log + r.applied)
  {
    var items := ToItems(a.envelopes).value;
    forall i | 0 <= i < |items| ensures ItemFinalized(s.history, items[i]) {
      assert FromChain(s.history, a.envelopes[i]);
      assert ToItem(a.envelopes[i]) == Ok(items[i]);
    }
    AdvanceKeepsInv(s.history, s.checkpoints, s.log, items);
  }

  lemma StepKeepsInv(l: Limits, s: System, a: Action)
    requires ValidLimits(l) && SystemInv(l, s) && Allowed(s, a)
    ensures SystemInv(l, Step(l, s, a))
    ensures Grows(s.history, Step(l, s, a).history)
  {
    GrowsReflexive(s.history);
    match a
    case AddEvents(cs) =>
      AddKeepsInvariants(l, s.outbox, s.history, cs);
      HistoryGrowthKeepsInv(s.history, Step(l, s, a).history, s.checkpoints, s.log);
    case Acknowledge(ids) => MarkDispatchedKeeps(l, s.outbox, s.history, ids);
    case ReportFailure(id, error) => MarkFailedKeeps(l, s.outbox, s.history, id, error);
    case Deliver(_, _) => if DeliveryCommits(s, a) { DeliveryKeepsInv(s, a); }
    case ResetProjection =>
  }

  /** Every reachable state satisfies the system invariant. */
  lemma {:induction false} RunKeepsInv(l: Limits, actions: seq<Action>)
    requires ValidLimits(l) && AllowedRun(l, actions)
    ensures SystemInv(l, Run(l, actions))
  {
    if |actions| == 0 {
      EmptyIsValid(l);
    } else {
      RunKeepsInv(l, actions[..|actions| - 1]);
      StepKeepsInv(l, Run(l, actions[..|actions| - 1]), actions[|actions| - 1]);
    }
  }
}
