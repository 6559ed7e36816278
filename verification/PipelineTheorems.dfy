/** The promises of the delivery pipeline over whole runs. */
module PipelineTheorems {
  import opened Common
  import opened Outboxes
  import opened OutboxChain
  import opened OutboxProperties
  import opened Projections
  import opened ProjectionProperties
  import opened Pipeline

  // ---- one immutable event per position ----

  lemma {:induction false} HistoryGrowsAlong(l: Limits, actions: seq<Action>, n: nat)
    requires ValidLimits(l) && AllowedRun(l, actions) && n <= |actions|
    ensures AllowedRun(l, actions[..n])
    ensures Grows(Run(l, actions[..n]).history, Run(l, actions).history)
    decreases |actions|
  {
    if n == |actions| {
      assert actions[..n] == actions;
      GrowsReflexive(Run(l, actions).history);
    } else {
      var init := actions[..|actions| - 1];
      HistoryGrowsAlong(l, init, n);
      assert init[..n] == actions[..n];
      RunKeepsInv(l, init);
      StepKeepsInv(l, Run(l, init), actions[|actions| - 1]);
      GrowsTransitive(Run(l, actions[..n]).history, Run(l, init).history, Run(l, actions).history);
    }
  }

  /** The outbox stores this record, pending or dead, in this state. */
  predicate Stores(s: State, r: Record) {
    || (s.pending.Has(r.dispatchId) && s.pending.entries[r.dispatchId] == r)
    || (s.dead.Has(r.dispatchId) && s.dead.entries[r.dispatchId] == r)
  }

  lemma StoredStaysFinalized(l: Limits, actions: seq<Action>, n: nat, r: Record)
    requires ValidLimits(l) && AllowedRun(l, actions) && n <= |actions|
    requires Stores(Run(l, actions[..n]).outbox, r)
    ensures Finalized(Run(l, actions).history, r.source, r.dispatchId, r.position)
    ensures r.event.eventId == r.dispatchId
  {
    HistoryGrowsAlong(l, actions, n);
    RunKeepsInv(l, actions[..n]);
    var before := Run(l, actions[..n]);
    assert RecordsFinalized(before.outbox.pending, before.history);
    assert RecordsFinalized(before.outbox.dead, before.history);
    GrowsKeepsFinalized(before.history, Run(l, actions).history, r.source, r.dispatchId, r.position);
  }

  /** Over a whole run, whatever was partly rejected, dispatched, evicted or dead-lettered in
      between: two records ever stored for one source and version carry one commit size and
      one predecessor, and at one sequence they are the same event. */
  lemma OnePositionOneEvent(l: Limits, actions: seq<Action>, m: nat, n: nat, r1: Record, r2: Record)
    requires ValidLimits(l) && AllowedRun(l, actions) && m <= |actions| && n <= |actions|
    requires Stores(Run(l, actions[..m]).outbox, r1) && Stores(Run(l, actions[..n]).outbox, r2)
    requires r1.source == r2.source && r1.position.aggregateVersion == r2.position.aggregateVersion
    ensures r1.position.commitSize == r2.position.commitSize && r1.position.previous == r2.position.previous
    ensures r1.position.commitSequence == r2.position.commitSequence ==>
              r1.event.eventId == r2.event.eventId && r1.position == r2.position
  {
    StoredStaysFinalized(l, actions, m, r1);
    StoredStaysFinalized(l, actions, n, r2);
    RunKeepsInv(l, actions);
    var s := Run(l, actions);
    PositionIdentifiesEvent(s.outbox, s.history, r1.source, r1.dispatchId, r1.position, r2.dispatchId, r2.position);
  }

  // ---- exactly once, in order ----

  predicate HasReached(c: Checkpoints, a: Address, p: Position) {
    a in c && !IsPositionAfter(p, c[a].position)
  }

  ghost predicate WasApplied(log: seq<Item>, a: Address, id: string, p: Position) {
    exists i :: 0 <= i < |For(a, log)| && For(a, log)[i].event.eventId == id && For(a, log)[i].position == p
  }

  lemma AppliedAreFinalized(s: System, a: Address)
    requires ProjectionInv(s.history, s.checkpoints, s.log)
    ensures var l := For(a, s.log);
            && Gapless(l)
            && CheckpointIsLast(s.checkpoints, a, l)
            && (forall i :: 0 <= i < |l| ==> Finalized(s.history, a, l[i].event.eventId, l[i].position))
            && (forall i :: 0 <= i < |l| ==> IsValidPosition(l[i].position))
            && (forall i :: 0 <= i < |l| ==> IsProjectable(l[i]))
  {
    var l := For(a, s.log);
    assert AddressInv(s.history, s.checkpoints, a, l);
    forall i | 0 <= i < |l|
      ensures Finalized(s.history, a, l[i].event.eventId, l[i].position)
      ensures IsValidPosition(l[i].position) && IsProjectable(l[i])
    {
      assert ItemFinalized(s.history, l[i]);
    }
  }

  /** In every reachable state and for every address, the applied events start at genesis and
      follow the chain without a gap, each once and in order; the checkpoint names exactly the
      last of them. */
  lemma AppliedOnceInOrder(l: Limits, actions: seq<Action>, a: Address)
    requires ValidLimits(l) && AllowedRun(l, actions)
    ensures var s := Run(l, actions);
            var applied := For(a, s.log);
            && Gapless(applied)
            && CheckpointIsLast(s.checkpoints, a, applied)
            && forall i, j :: 0 <= i < j < |applied| ==> IsPositionAfter(applied[j].position, applied[i].position)
  {
    RunKeepsInv(l, actions);
    var s := Run(l, actions);
    AppliedAreFinalized(s, a);
    var applied := For(a, s.log);
    forall i, j | 0 <= i < j < |applied| ensures IsPositionAfter(applied[j].position, applied[i].position) {
      AppliedIncreases(applied, i, j);
    }
  }

  lemma {:induction false} EarlierThanLast(applied: seq<Item>, i: nat)
    requires Gapless(applied) && i < |applied|
    requires forall k :: 0 <= k < |applied| ==> IsValidPosition(applied[k].position)
    ensures !IsPositionAfter(applied[i].position, applied[|applied| - 1].position)
  {
    if i < |applied| - 1 {
      AppliedIncreases(applied, i, |applied| - 1);
    }
  }

  /** `hasReached` answers true for a position of the chain exactly when its event was applied. */
  lemma HasReachedIsApplied(l: Limits, actions: seq<Action>, a: Address, id: string, p: Position)
    requires ValidLimits(l) && AllowedRun(l, actions)
    requires Finalized(Run(l, actions).history, a, id, p) && IsValidPosition(p)
    ensures HasReached(Run(l, actions).checkpoints, a, p) <==> WasApplied(Run(l, actions).log, a, id, p)
  {
    RunKeepsInv(l, actions);
    var s := Run(l, actions);
    AppliedAreFinalized(s, a);
    var applied := For(a, s.log);
    if HasReached(s.checkpoints, a, p) {
      AppliedIsPrefix(s.outbox, s.history, a, applied, id, p);
    }
    if WasApplied(s.log, a, id, p) {
      var i :| 0 <= i < |applied| && applied[i].event.eventId == id && applied[i].position == p;
      EarlierThanLast(applied, i);
    }
  }

  // ---- rebuild ----

  /** The read model: a fold of the handler over the applied events. */
  function ReadModel<M>(handler: (M, Event) -> M, initial: M, log: seq<Item>): M {
    if |log| == 0 then initial
    else handler(ReadModel(handler, initial, log[..|log| - 1]), log[|log| - 1].event)
  }

  lemma ForPrefix(a: Address, log: seq<Item>, n: nat)
    requires n < |log|
    ensures For(a, log[..n + 1]) == if log[n].address == a then For(a, log[..n]) + [log[n]] else For(a, log[..n])
  {
    assert log[..n + 1] == log[..n] + [log[n]];
    ForAppend(a, log[..n], log[n]);
  }

  lemma {:induction false} ForIsPrefix(a: Address, log: seq<Item>, n: nat)
    requires n <= |log|
    ensures For(a, log[..n]) <= For(a, log)
    decreases |log| - n
  {
    if n == |log| {
      assert log[..n] == log;
    } else {
      ForPrefix(a, log, n);
      ForIsPrefix(a, log, n + 1);
    }
  }

  ghost predicate AllLast(log: seq<Item>, c: Checkpoints) {
    forall a :: CheckpointIsLast(c, a, For(a, log))
  }

  lemma NextOfItsAddress(log: seq<Item>, n: nat)
    requires n < |log| && Gapless(For(log[n].address, log))
    ensures var l := For(log[n].address, log[..n]);
            IsContiguous(log[n].position, PositionBefore(l, |l|))
  {
    var a := log[n].address;
    var l := For(a, log[..n]);
    ForPrefix(a, log, n);
    ForIsPrefix(a, log, n + 1);
    var whole := For(a, log);
    assert whole[|l|] == log[n];
    assert Follows(whole, |l|);
    assert |l| > 0 ==> whole[|l| - 1] == l[|l| - 1];
  }

  /** Replaying an applied log from nothing applies every item of it again, in order. */
  lemma {:induction false} ReplayAdvances(log: seq<Item>, n: nat) returns (c: Checkpoints)
    requires n <= |log|
    requires forall a :: Gapless(For(a, log))
    requires forall i :: 0 <= i < |log| ==> IsValidPosition(log[i].position)
    ensures AdvanceAll(map[], log[..n]) == Advanced(c, log[..n], 0)
    ensures AllLast(log[..n], c)
  {
    if n == 0 {
      c := map[];
    } else {
      var before := ReplayAdvances(log, n - 1);
      var i := log[n - 1];
      var l := For(i.address, log[..n - 1]);
      assert CheckpointIsLast(before, i.address, l);
      NextOfItsAddress(log, n - 1);
      AdvancePrefix(map[], log, n - 1);
      assert Extends(before, i) by {
        assert Watermark(before, i.address) == PositionBefore(l, |l|);
        NextIsNotCovered(before, i, l);
      }
      c := Apply(before, i);
      assert log[..n] == log[..n - 1] + [i];
      ApplyKeepsLast(log, n - 1, before);
    }
  }

  lemma NextIsNotCovered(c: Checkpoints, i: Item, l: seq<Item>)
    requires CheckpointIsLast(c, i.address, l) && IsValidPosition(i.position)
    requires IsContiguous(i.position, PositionBefore(l, |l|))
    ensures !Skips(c, i)
  {
  }

  lemma ApplyKeepsLast(log: seq<Item>, n: nat, c: Checkpoints)
    requires n < |log| && AllLast(log[..n], c)
    ensures AllLast(log[..n + 1], Apply(c, log[n]))
  {
    var next := log[..n + 1];
    var after := Apply(c, log[n]);
    forall a ensures CheckpointIsLast(after, a, For(a, next)) {
      ForPrefix(a, log, n);
      assert CheckpointIsLast(c, a, For(a, log[..n]));
    }
  }

  lemma {:induction false} ItemOfItsAddress(log: seq<Item>, n: nat) returns (k: nat)
    requires n < |log|
    ensures k == |For(log[n].address, log[..n])| < |For(log[n].address, log)|
    ensures For(log[n].address, log)[k] == log[n]
  {
    ForPrefix(log[n].address, log, n);
    ForIsPrefix(log[n].address, log, n + 1);
    k := |For(log[n].address, log[..n])|;
  }

  lemma LogIncreases(log: seq<Item>, i: nat, j: nat)
    requires i < j < |log| && log[i].address == log[j].address
    requires forall a :: Gapless(For(a, log))
    requires forall k :: 0 <= k < |log| ==> IsValidPosition(log[k].position)
    ensures IsPositionAfter(log[j].position, log[i].position)
  {
    var a := log[i].address;
    var x := ItemOfItsAddress(log, i);
    var y := ItemOfItsAddress(log, j);
    ForPrefix(a, log, i);
    ForIsPrefixOf(a, log, i + 1, j);
    ForKeepsValid(a, log);
    AppliedIncreases(For(a, log), x, y);
  }

  lemma {:induction false} ForIsPrefixOf(a: Address, log: seq<Item>, m: nat, n: nat)
    requires m <= n <= |log|
    ensures For(a, log[..m]) <= For(a, log[..n])
  {
    ForIsPrefix(a, log[..n], m);
    assert log[..n][..m] == log[..m];
  }

  lemma {:induction false} ForKeepsValid(a: Address, log: seq<Item>)
    requires forall k :: 0 <= k < |log| ==> IsValidPosition(log[k].position)
    ensures forall k :: 0 <= k < |For(a, log)| ==> IsValidPosition(For(a, log)[k].position)
  {
    if |log| > 0 {
      ForKeepsValid(a, log[..|log| - 1]);
    }
  }

  lemma {:induction false} LogIsProjectable(s: System, i: nat)
    requires ProjectionInv(s.history, s.checkpoints, s.log) && i < |s.log|
    ensures IsProjectable(s.log[i]) && IsValidPosition(s.log[i].position)
  {
    var k := ItemOfItsAddress(s.log, i);
    AppliedAreFinalized(s, s.log[i].address);
  }

  lemma ReplayIsOrdered(log: seq<Item>)
    requires forall a :: Gapless(For(a, log))
    requires forall i :: 0 <= i < |log| ==> IsValidPosition(log[i].position)
    ensures ConsistentReceipts(log) && InOrder(map[], log)
  {
    forall i, j | 0 <= i < j < |log| && log[i].address == log[j].address
      ensures IsPositionAfter(log[j].position, log[i].position)
    {
      LogIncreases(log, i, j);
    }
  }

  lemma ReplayIsAccepted(log: seq<Item>, c: Checkpoints)
    requires forall a :: Gapless(For(a, log))
    requires forall i :: 0 <= i < |log| ==> IsProjectable(log[i]) && IsValidPosition(log[i].position)
    requires forall a :: CheckpointIsLast(c, a, For(a, log))
    ensures Accepts(map[], log)
    ensures AdvanceAll(map[], log) == Advanced(c, log, 0)
  {
    ReplayIsOrdered(log);
    var d := ReplayAdvances(log, |log|);
    assert log[..|log|] == log;
    SameLast(d, c, log);
  }

  lemma LogIsReplayable(s: System)
    requires ProjectionInv(s.history, s.checkpoints, s.log)
    ensures Accepts(map[], s.log)
    ensures AdvanceAll(map[], s.log) == Advanced(s.checkpoints, s.log, 0)
  {
    forall i | 0 <= i < |s.log| ensures IsProjectable(s.log[i]) && IsValidPosition(s.log[i].position) {
      LogIsProjectable(s, i);
    }
    forall a ensures Gapless(For(a, s.log)) && CheckpointIsLast(s.checkpoints, a, For(a, s.log)) {
      AppliedAreFinalized(s, a);
    }
    hide ProjectionInv, Accepts, Gapless, IsProjectable, IsValidPosition, CheckpointIsLast, AdvanceAll;
    ReplayIsAccepted(s.log, s.checkpoints);
  }

  /** Reset, then one replay of what had been applied: the batch is accepted, applies exactly the
      same events in the same order, and leaves the same checkpoints and the same read model. */
  lemma ResetThenReplayRebuilds<M>(l: Limits, actions: seq<Action>, handler: (M, Event) -> M, initial: M)
    requires ValidLimits(l) && AllowedRun(l, actions)
    ensures var s := Run(l, actions);
            var cleared := Step(l, s, ResetProjection);
            && cleared.checkpoints == map[] && cleared.log == []
            && Accepts(cleared.checkpoints, s.log)
            && AdvanceAll(cleared.checkpoints, s.log) == Advanced(s.checkpoints, s.log, 0)
            && ReadModel(handler, initial, cleared.log + AdvanceAll(cleared.checkpoints, s.log).applied)
               == ReadModel(handler, initial, s.log)
  {
    RunKeepsInv(l, actions);
    hide ProjectionInv, Accepts, AllowedRun, Run, ReadModel, AdvanceAll;
    var s := Run(l, actions);
    LogIsReplayable(s);
    assert [] + s.log == s.log;
  }

  lemma SameLast(c: Checkpoints, d: Checkpoints, log: seq<Item>)
    requires AllLast(log, c)
    requires forall a :: CheckpointIsLast(d, a, For(a, log))
    ensures c == d
  {
    forall a ensures a in c <==> a in d {
      assert CheckpointIsLast(c, a, For(a, log)) && CheckpointIsLast(d, a, For(a, log));
    }
    forall a | a in c ensures c[a] == d[a] {
      assert CheckpointIsLast(c, a, For(a, log)) && CheckpointIsLast(d, a, For(a, log));
    }
  }

  // ---- progress ----

  /** Every commit in the history has all its events, as `withCommit` supplies them. */
  ghost predicate WholeCommit(c: Cursor) {
    && 0 <= c.aggregateVersion
    && 1 <= c.commitSize
    && forall k :: 0 <= k < c.commitSize ==> k in c.owners
  }

  ghost predicate WholeCommits(h: History) {
    forall a, i :: a in h && 0 <= i < |h[a]| ==> WholeCommit(h[a][i])
  }

  function PositionIn(c: Cursor, k: int): Position {
    Position(c.aggregateVersion, k, c.commitSize, c.previous)
  }

  lemma CommitEventIsFinalized(s: State, h: History, a: Address, i: nat, k: int)
    requires HeadsAreLast(s.cursors, h) && WholeCommits(h)
    requires a in h && i < |h[a]| && 0 <= k < h[a][i].commitSize
    ensures IsValidPosition(PositionIn(h[a][i], k))
    ensures k in h[a][i].owners && Finalized(h, a, h[a][i].owners[k], PositionIn(h[a][i], k))
  {
    var c := h[a][i];
    assert WholeCommit(c);
    assert Owns(c, c.owners[k], PositionIn(c, k));
    if i > 0 {
      assert WholeCommit(h[a][i - 1]);
    }
  }

  /** Everything the chain holds before `p` has been applied. */
  ghost predicate CaughtUpTo(s: System, a: Address, p: Position) {
    forall id, q :: Finalized(s.history, a, id, q) && IsValidPosition(q) && IsPositionAfter(p, q) ==>
      HasReached(s.checkpoints, a, q)
  }

  lemma EarlierIsReached(s: System, a: Address, p: Position, i: nat, k: int)
    requires HeadsAreLast(s.outbox.cursors, s.history) && WholeCommits(s.history) && CaughtUpTo(s, a, p)
    requires a in s.history && i < |s.history[a]| && 0 <= k < s.history[a][i].commitSize
    requires IsPositionAfter(p, PositionIn(s.history[a][i], k))
    ensures HasReached(s.checkpoints, a, PositionIn(s.history[a][i], k))
  {
    CommitEventIsFinalized(s.outbox, s.history, a, i, k);
  }

  lemma FirstIsContiguous(s: System, a: Address, i: nat, p: Position)
    requires HeadsAreLast(s.outbox.cursors, s.history) && WholeCommits(s.history) && CaughtUpTo(s, a, p)
    requires a !in s.checkpoints && IsValidPosition(p)
    requires a in s.history && i < |s.history[a]| && p == PositionIn(s.history[a][i], p.commitSequence)
    ensures IsContiguous(p, None)
  {
    if p.commitSequence > 0 {
      EarlierIsReached(s, a, p, i, 0);
    }
    if i > 0 {
      LinkedIncreases(s.history[a], i - 1, i);
      assert WholeCommit(s.history[a][i - 1]);
      EarlierIsReached(s, a, p, i - 1, 0);
    }
  }

  lemma NextIsContiguous(s: System, a: Address, i: nat, p: Position, j: nat, w: Position)
    requires HeadsAreLast(s.outbox.cursors, s.history) && WholeCommits(s.history) && CaughtUpTo(s, a, p)
    requires a in s.checkpoints && s.checkpoints[a].position == w && IsPositionAfter(p, w)
    requires IsValidPosition(p) && IsValidPosition(w)
    requires a in s.history && i < |s.history[a]| && p == PositionIn(s.history[a][i], p.commitSequence)
    requires j < |s.history[a]| && w == PositionIn(s.history[a][j], w.commitSequence)
    ensures IsContiguous(p, Some(w))
  {
    var chain := s.history[a];
    if p.aggregateVersion == w.aggregateVersion {
      SameVersionSameLink(chain, i, j);
      if p.commitSequence > w.commitSequence + 1 {
        EarlierIsReached(s, a, p, i, w.commitSequence + 1);
      }
    } else {
      if i < j { LinkedIncreases(chain, i, j); }
      if w.commitSequence < w.commitSize - 1 {
        EarlierIsReached(s, a, p, j, w.commitSequence + 1);
      }
      if p.commitSequence > 0 {
        EarlierIsReached(s, a, p, i, 0);
      }
      if j < i - 1 {
        LinkedIncreases(chain, i - 1, i);
        LinkedIncreases(chain, j, i - 1);
        assert WholeCommit(chain[i - 1]);
        EarlierIsReached(s, a, p, i - 1, 0);
      }
    }
  }

  lemma FinalizedLink(h: History, a: Address, id: string, p: Position) returns (i: nat)
    requires Finalized(h, a, id, p)
    ensures a in h && i < |h[a]| && p == PositionIn(h[a][i], p.commitSequence)
  {
    i :| 0 <= i < |h[a]| && Owns(h[a][i], id, p);
  }

  lemma SingleIsAccepted(c: Checkpoints, e: Item)
    requires IsProjectable(e) && IsReadable(c, e) && WatermarkProblem(c, e).None? && Extends(c, e)
    ensures Accepts(c, [e]) && AdvanceAll(c, [e]) == Advanced(Apply(c, e), [e], 0)
  {
    assert [e][..0] == [];
  }

  lemma NextFollowsLast(s: System, e: Item)
    requires HeadsAreLast(s.outbox.cursors, s.history) && ProjectionInv(s.history, s.checkpoints, s.log)
    requires WholeCommits(s.history) && Finalized(s.history, e.address, e.event.eventId, e.position)
    requires IsValidPosition(e.position) && !HasReached(s.checkpoints, e.address, e.position)
    requires CaughtUpTo(s, e.address, e.position) && e.address in s.checkpoints
    ensures IsContiguous(e.position, Some(s.checkpoints[e.address].position))
    ensures IsValidCheckpoint(s.checkpoints[e.address])
  {
    var a := e.address;
    AppliedAreFinalized(s, a);
    var applied := For(a, s.log);
    hide ProjectionInv, WholeCommits, CaughtUpTo, HeadsAreLast, IsContiguous;
    var last := applied[|applied| - 1];
    var i := FinalizedLink(s.history, a, e.event.eventId, e.position);
    var j := FinalizedLink(s.history, a, last.event.eventId, last.position);
    hide Finalized;
    NextIsContiguous(s, a, i, e.position, j, last.position);
  }

  lemma NextItemIsAccepted(s: System, e: Item)
    requires HeadsAreLast(s.outbox.cursors, s.history) && ProjectionInv(s.history, s.checkpoints, s.log)
    requires WholeCommits(s.history) && ItemFinalized(s.history, e) && IsValidPosition(e.position)
    requires !HasReached(s.checkpoints, e.address, e.position) && CaughtUpTo(s, e.address, e.position)
    ensures Accepts(s.checkpoints, [e]) && AdvanceAll(s.checkpoints, [e]) == Advanced(Apply(s.checkpoints, e), [e], 0)
  {
    hide ProjectionInv, WholeCommits, CaughtUpTo, HeadsAreLast, IsContiguous, Finalized, Accepts, AdvanceAll;
    if e.address in s.checkpoints {
      NextFollowsLast(s, e);
    } else {
      var i := FinalizedLink(s.history, e.address, e.event.eventId, e.position);
      FirstIsContiguous(s, e.address, i, e.position);
    }
    SingleIsAccepted(s.checkpoints, e);
  }

  /** No stall: with whole commits, the next unapplied event of an address, delivered alone, is
      accepted and applied in every reachable state, whatever was delivered before. */
  lemma NextEventIsApplied(l: Limits, actions: seq<Action>, e: Item)
    requires ValidLimits(l) && AllowedRun(l, actions)
    requires WholeCommits(Run(l, actions).history) && ItemFinalized(Run(l, actions).history, e)
    requires IsValidPosition(e.position)
    requires !HasReached(Run(l, actions).checkpoints, e.address, e.position)
    requires CaughtUpTo(Run(l, actions), e.address, e.position)
    ensures var c := Run(l, actions).checkpoints;
            Accepts(c, [e]) && AdvanceAll(c, [e]) == Advanced(Apply(c, e), [e], 0)
  {
    RunKeepsInv(l, actions);
    NextItemIsAccepted(Run(l, actions), e);
  }
}
