/** Inputs on which `add` does not give what its documentation suggests. The exact conditions are
    `OutboxChain.ChainKeptIff` and `OutboxAtomicity.AllOrNothingIff`. */
module OutboxLimitsOfAdd {
  import opened Common
  import opened Outboxes

  const ORDER := Address("Order", "1")
  const UNBOUNDED := Limits(5, 10000, None, None)

  function Created(id: string): Event { Event(id, Some("1"), Some("Order"), "") }

  function At(id: string, version: int): Candidate {
    Candidate(Created(id), ORDER, CandidatePosition(version, 0, 1))
  }

  function AddOnly(s: State, c: Candidate): AddOutcome { Add(UNBOUNDED, s, [c]) }

  lemma SingleAdd(s: State, c: Candidate)
    requires Precheck(UNBOUNDED, s, [c]).None?
    requires AddOne(UNBOUNDED, s, c).Ok?
    ensures AddOnly(s, c) == AddOutcome(AddOne(UNBOUNDED, s, c).value, None)
  {
    assert [c][..0] == [];
    assert AddLoop(UNBOUNDED, s, []) == AddOutcome(s, None);
  }

  lemma SinglePrecheck(s: State, c: Candidate)
    requires StoredMismatch(s, c).None? && SimulateOne(s.cursors, c).Ok?
    ensures Precheck(UNBOUNDED, s, [c]).None?
  {
    assert [c][..0] == [];
    assert ReceiptPrecheck(s, []) == None;
    assert Simulate(s.cursors, []) == Ok(s.cursors);
  }

  function Pended(s: State, c: Candidate): State {
    s.(cursors := NextCursors(s, c), pending := s.pending.Set(c.event.eventId, NextRecord(s, c)))
  }

  lemma PendedByAdd(s: State, c: Candidate)
    requires !s.dispatched.Has(c.event.eventId) && !s.dead.Has(c.event.eventId)
    requires StoredMismatch(s, c).None? && SimulateOne(s.cursors, c).Ok?
    requires !IsStale(s, c) && HeadConflict(s.cursors, c).None?
    ensures Precheck(UNBOUNDED, s, [c]).None?
    ensures AddLoop(UNBOUNDED, s, [c]) == AddOutcome(Pended(s, c), None)
    ensures AddOnly(s, c) == AddOutcome(Pended(s, c), None)
  {
    SinglePrecheck(s, c);
    SingleAdd(s, c);
  }

  /** A version refresh after the head has moved on: four accepted adds leave two pending events
      at one position of one source, with different predecessors. */
  lemma RefreshCanShareAPosition()
    ensures var s1 := AddOnly(EMPTY, At("a", 1));
            var s2 := AddOnly(s1.state, At("b", 2));
            var s3 := AddOnly(s2.state, At("a", 3));
            var s4 := AddOnly(s3.state, At("c", 3));
            && s1.error.None? && s2.error.None? && s3.error.None? && s4.error.None?
            && s4.state.pending.Has("a") && s4.state.pending.Has("c")
            && s4.state.pending.entries["a"].position == Position(3, 0, 1, None)
            && s4.state.pending.entries["c"].position == Position(3, 0, 1, Some(2))
  {
    PendedByAdd(EMPTY, At("a", 1));
    var s1 := Pended(EMPTY, At("a", 1));
    assert s1.cursors[ORDER] == Cursor(1, None, 1, map[0 := "a"]);
    PendedByAdd(s1, At("b", 2));
    var s2 := Pended(s1, At("b", 2));
    assert s2.cursors[ORDER] == Cursor(2, Some(1), 1, map[0 := "b"]);
    assert IsVersionRefresh(s2, At("a", 3));
    PendedByAdd(s2, At("a", 3));
    var s3 := Pended(s2, At("a", 3));
    assert s3.cursors[ORDER] == Cursor(2, Some(1), 1, map[0 := "b"]);
    PendedByAdd(s3, At("c", 3));
  }

  /** A stale candidate behind a good one: the call is rejected, yet the good one stays. */
  lemma StaleHeadLeavesAPrefix()
    ensures var s1 := AddOnly(EMPTY, At("a", 2)).state;
            var other := At("b", 1).(source := Address("Order", "2"));
            var r := Add(UNBOUNDED, s1, [other, At("c", 1)]);
            r.error == Some(StaleHead) && r.state != s1 && r.state.pending.Has("b")
  {
    PendedByAdd(EMPTY, At("a", 2));
    var s1 := Pended(EMPTY, At("a", 2));
    var other := At("b", 1).(source := Address("Order", "2"));
    PendedByAdd(s1, other);
    TwoCandidates(s1, other, At("c", 1));
  }

  /** A version refresh past a head that is not its own misleads the pre-check: it sees the head
      move, the loop does not move it, and a later candidate meets the position guard halfway. */
  lemma RefreshLeavesAPrefix()
    ensures var s := AddOnly(AddOnly(EMPTY, At("a", 1)).state, At("b", 2)).state;
            var r := Add(UNBOUNDED, s, [At("a", 3), At("d", 2)]);
            && Precheck(UNBOUNDED, s, [At("a", 3), At("d", 2)]).None?
            && r.error == Some(PositionOwned) && r.state != s
            && r.state.pending.Has("a") && r.state.pending.entries["a"].position.aggregateVersion == 3
  {
    PendedByAdd(EMPTY, At("a", 1));
    var s1 := Pended(EMPTY, At("a", 1));
    PendedByAdd(s1, At("b", 2));
    var s := Pended(s1, At("b", 2));
    assert s.cursors[ORDER] == Cursor(2, Some(1), 1, map[0 := "b"]);
    PendedByAdd(s, At("a", 3));
    var s' := Pended(s, At("a", 3));
    assert s'.cursors[ORDER] == Cursor(2, Some(1), 1, map[0 := "b"]);
    assert AddOne(UNBOUNDED, s', At("d", 2)) == Err(PositionOwned);
    RefreshPrecheck(s, At("a", 3), At("d", 2));
    assert [At("a", 3), At("d", 2)][..1] == [At("a", 3)];
  }

  /** The simulated head is past the second candidate, so the pre-check lets it through. */
  lemma RefreshPrecheck(s: State, first: Candidate, second: Candidate)
    requires Precheck(UNBOUNDED, s, [first]).None? && first.source == second.source
    requires second.source in s.cursors && s.cursors[second.source].aggregateVersion < first.position.aggregateVersion
    requires second.position.aggregateVersion < first.position.aggregateVersion
    requires first.event.eventId != second.event.eventId && !IsKnown(s, second.event.eventId)
    ensures Precheck(UNBOUNDED, s, [first, second]).None?
  {
    var cs := [first, second];
    assert cs[..1] == [first] && [first][..0] == [];
    assert FirstReceipts([]) == map[];
    assert Simulate(s.cursors, []) == Ok(s.cursors);
    assert StoredMismatch(s, second).None?;
    assert BatchMismatch(s, FirstReceipts([first]), second).None?;
    assert Simulate(s.cursors, [first]) == SimulateOne(s.cursors, first);
    assert Simulate(s.cursors, cs).Ok?;
  }

  lemma TwoCandidates(s: State, good: Candidate, stale: Candidate)
    requires Precheck(UNBOUNDED, s, [good]).None?
    requires AddLoop(UNBOUNDED, s, [good]) == AddOutcome(Pended(s, good), None)
    requires good.event.eventId != stale.event.eventId && good.source != stale.source
    requires !IsKnown(s, stale.event.eventId)
    requires stale.source in s.cursors && stale.position.aggregateVersion < s.cursors[stale.source].aggregateVersion
    ensures Add(UNBOUNDED, s, [good, stale]) == AddOutcome(Pended(s, good), Some(StaleHead))
  {
    var cs := [good, stale];
    assert cs[..1] == [good] && [good][..0] == [];
    assert FirstReceipts([]) == map[];
    assert Simulate(s.cursors, []) == Ok(s.cursors);
    assert StoredMismatch(s, stale).None?;
    assert BatchMismatch(s, FirstReceipts([good]), stale).None?;
    assert Simulate(s.cursors, [good]).Ok?;
    assert Simulate(s.cursors, cs).Ok?;
    assert StoredMismatch(Pended(s, good), stale).None?;
    assert AddOne(UNBOUNDED, Pended(s, good), stale) == Err(StaleHead);
  }
}
