/** Runs on which committing does not give what it promises elsewhere: an address created again
    after deletion, below the head the outbox retains, and an instance committed again although its
    commit had landed. The exact conditions are `CommitRuns.HarvestRefusedIff` and `IsCareful`. */
module CommitLimits {
  import opened Common
  import opened OrderedMaps
  import opened Outboxes
  import opened OutboxChain
  import opened OutboxProperties
  import opened OutboxAtomicity
  import opened CommitScopes
  import opened WithCommits
  import opened HarvestedBatches
  import opened CommitRuns

  const FIRST := Address("Order", "1")
  const SECOND := Address("Order", "2")
  const A := Event("a", Some("1"), Some("Order"), "")
  const B := Event("b", Some("1"), Some("Order"), "")
  const C := Event("c", Some("1"), Some("Order"), "")
  const OTHER := Event("d", Some("2"), Some("Order"), "")

  /** One retained receipt, no capacities. */
  const SMALL := Limits(5, 1, None, None)

  lemma Extend(steps: seq<Step>, step: Step)
    requires IsRun(SMALL, steps) && Enabled(Run(SMALL, steps), step)
    ensures IsRun(SMALL, steps + [step])
    ensures Run(SMALL, steps + [step]) == Next(SMALL, Run(SMALL, steps), step)
    ensures IsCareful(SMALL, steps) && Careful(Run(SMALL, steps), step) ==> IsCareful(SMALL, steps + [step])
  {
    hide Next, Enabled, Careful;
    assert (steps + [step])[..|steps|] == steps;
  }

  function Single(a: Address, v: View, d: Disposition): seq<Enrolled> { [Enrolled(a, v, d)] }

  /** Adding nothing changes nothing. */
  lemma AddNone(s: State, h: History)
    ensures Add(SMALL, s, []) == AddOutcome(s, None) && AddHistory(SMALL, s, h, []) == h
  {
  }

  /** A fresh candidate above its head is added. */
  lemma AddFresh(s: State, h: History, c: Candidate)
    requires AcceptsFresh(s, c) && SimulateOne(s.cursors, c).Ok?
    ensures Add(SMALL, s, [c]) == AddOutcome(StoreFresh(s, c), None)
    ensures AddHistory(SMALL, s, h, [c]) == NextHistory(s, h, c)
  {
    assert [c][..0] == [];
    assert StoredMismatch(s, c).None?;
    assert FirstReceipts([]) == map[];
    assert Simulate(s.cursors, []) == Ok(s.cursors);
    assert AddLoop(SMALL, s, []) == AddOutcome(s, None);
    assert LoopHistory(SMALL, s, h, []) == h;
    AddOneOnFresh(SMALL, s, c);
    assert BatchMismatch(s, map[], c).None?;
    assert ReceiptPrecheck(s, []) == None;
    assert ReceiptPrecheck(s, [c]).None? && Simulate(s.cursors, [c]).Ok?;
    assert AddLoop(SMALL, s, [c]) == AddOutcome(StoreFresh(s, c), None);
  }

  lemma HarvestNone(v: View)
    requires v.pendingEvents == []
    ensures Harvest([v]) == Ok([])
  {
    assert [v][..0] == [];
    var none: seq<Candidate> := [];
    assert Harvest([]) == Ok(none) && HarvestOne(v) == Ok(none) && none + none == none;
  }

  function AtZero(e: Event, version: int): Candidate
    requires Addressed(e)
  {
    Candidate(e, SourceOf(e), CandidatePosition(version, 0, 1))
  }

  lemma HarvestOfOne(v: View, e: Event)
    requires v.pendingEvents == [e] && Addressed(e) && Advanced(v)
    ensures HarvestOne(v) == Ok([AtZero(e, v.version)])
  {
    assert HarvestEvents(v, 0) == Ok([]);
    assert HarvestEvents(v, 1) == Ok([] + [Positioned(v, 0)]);
    assert |v.pendingEvents| == 1;
    assert HarvestOne(v) == HarvestEvents(v, 1);
    assert [] + [Positioned(v, 0)] == [Positioned(v, 0)];
  }

  lemma HarvestSingle(v: View, e: Event)
    requires v.pendingEvents == [e] && Addressed(e) && Advanced(v)
    ensures Harvest([v]) == Ok([AtZero(e, v.version)])
  {
    HarvestOfOne(v, e);
    assert [v][..0] == [] && [v][0] == v;
    var none: seq<Candidate> := [];
    assert Harvest([]) == Ok(none);
    assert none + [AtZero(e, v.version)] == [AtZero(e, v.version)];
  }

  // ---- one enrolled instance ----

  lemma CommitOne(w: World, i: nat, d: Disposition, transaction: StorageCall, cs: seq<Candidate>, s': State,
                  h': History)
    requires i in w.instances && Harvest([w.instances[i].view]) == Ok(cs)
    requires Add(SMALL, w.outbox, cs) == AddOutcome(s', None) && AddHistory(SMALL, w.outbox, w.history, cs) == h'
    requires !transaction.FailsUnapplied?
    ensures var e := Enrolled(w.instances[i].address, w.instances[i].view, d);
            DoCommit(SMALL, w, [(i, d)], transaction)
            == if transaction.Succeeds?
               then World(s', h', WriteRow(w.db, e), w.instances[i := Clean(w.instances[i], d)], w.minted, w.landed)
               else World(s', h', WriteRow(w.db, e), w.instances, w.minted, w.landed + EventfulOf(w, [(i, d)]))
  {
    var enrolled := [(i, d)];
    var es := EnrolledOf(w, enrolled);
    assert ViewsOf(es) == [w.instances[i].view];
    assert enrolled[..0] == [] && es[..0] == [];
    assert AcknowledgeAll(w.instances, []) == w.instances;
    assert WriteRows(w.db, []) == w.db;
    hide Add, AddHistory, Harvest, Clean, WriteRow;
  }

  // ---- an event committed twice ----

  const A_AT_0 := Candidate(A, FIRST, CandidatePosition(0, 0, 1))
  const B_AT_1 := Candidate(B, FIRST, CandidatePosition(1, 0, 1))
  const B_AT_2 := Candidate(B, FIRST, CandidatePosition(2, 0, 1))

  /** Instance 1 commits b, the call throws, the row is deleted and created again at the version
      instance 1 once loaded, and the outbox forgets b: the retry commits b a second time. */
  const TWICE: seq<Step> := [
    Create(0, FIRST), Mutate(0, [A], false), Commit([(0, Saved)], Succeeds),
    Load(1, FIRST), Mutate(1, [B], true), Commit([(1, Saved)], FailsApplied),
    Load(2, FIRST), Commit([(2, Deleted)], Succeeds),
    Create(3, FIRST), Commit([(3, Saved)], Succeeds),
    MarkSent(["b", "a"]), Mutate(1, [], true), Commit([(1, Saved)], Succeeds)]

  lemma Advance(steps: seq<Step>, n: nat)
    requires n < |steps| && IsRun(SMALL, steps[..n]) && Enabled(Run(SMALL, steps[..n]), steps[n])
    ensures IsRun(SMALL, steps[..n + 1])
    ensures Run(SMALL, steps[..n + 1]) == Next(SMALL, Run(SMALL, steps[..n]), steps[n])
    ensures IsCareful(SMALL, steps[..n]) && Careful(Run(SMALL, steps[..n]), steps[n]) ==>
            IsCareful(SMALL, steps[..n + 1])
  {
    hide Run, IsRun, IsCareful, Next, Enabled, Careful;
    assert steps[..n + 1] == steps[..n] + [steps[n]];
    Extend(steps[..n], steps[n]);
  }

  // Each step of the run on an explicit world.

  lemma Created(w: World, i: nat, a: Address)
    requires i !in w.instances
    ensures Enabled(w, Create(i, a))
    ensures Next(SMALL, w, Create(i, a)) == w.(instances := w.instances[i := Instance(a, View(0, None, []))])
  {
  }

  lemma Loaded(w: World, i: nat, a: Address, v: nat)
    requires i !in w.instances && a in w.db && w.db[a] == v
    ensures Enabled(w, Load(i, a))
    ensures Next(SMALL, w, Load(i, a)) == w.(instances := w.instances[i := Instance(a, View(v, Some(v), []))])
  {
  }

  lemma Recorded(w: World, i: nat, e: Event)
    requires i in w.instances && w.instances[i].view.pendingEvents == []
    requires Addressed(e) && SourceOf(e) == w.instances[i].address && e.eventId !in w.minted
    ensures forall bump :: Enabled(w, Mutate(i, [e], bump))
    ensures forall bump :: var v := w.instances[i].view;
              Next(SMALL, w, Mutate(i, [e], bump))
              == w.(instances := w.instances[i := w.instances[i].(view :=
                      View(if bump then v.version + 1 else v.version, v.persistedVersion, [e]))],
                    minted := w.minted + {e.eventId})
  {
    assert [e][0] == e && e.eventId in IdsOf([e]);
    assert IdsOf([e]) == {e.eventId};
    assert [] + [e] == [e];
  }

  lemma Bumped(w: World, i: nat)
    requires i in w.instances
    ensures Enabled(w, Mutate(i, [], true))
    ensures Next(SMALL, w, Mutate(i, [], true))
            == w.(instances := w.instances[i := w.instances[i].(view :=
                    w.instances[i].view.(version := w.instances[i].view.version + 1))])
  {
    assert IdsOf([]) == {} && w.minted + {} == w.minted;
    assert w.instances[i].view.pendingEvents + [] == w.instances[i].view.pendingEvents;
  }

  lemma Committed(w: World, i: nat, d: Disposition, transaction: StorageCall, cs: seq<Candidate>, s': State,
                  h': History)
    requires i in w.instances && WriteSucceeds(w, w.instances[i], d) && Harvest([w.instances[i].view]) == Ok(cs)
    requires Add(SMALL, w.outbox, cs) == AddOutcome(s', None) && AddHistory(SMALL, w.outbox, w.history, cs) == h'
    requires !transaction.FailsUnapplied?
    ensures Enabled(w, Commit([(i, d)], transaction))
    ensures var i0 := w.instances[i];
            var db' := if d.Deleted? then w.db - {i0.address} else w.db[i0.address := i0.view.version];
            Next(SMALL, w, Commit([(i, d)], transaction))
            == if transaction.Succeeds?
               then World(s', h', db', w.instances[i := i0.(view := Acknowledged(i0.view, d))], w.minted, w.landed)
               else World(s', h', db', w.instances, w.minted,
                                         w.landed + (if i0.view.pendingEvents == [] then {} else {i}))
  {
    CommitOne(w, i, d, transaction, cs, s', h');
    assert EventfulOf(w, [(i, d)]) == if w.instances[i].view.pendingEvents == [] then {} else {i};
    hide DoCommit, Add, AddHistory, Harvest, EventfulOf;
  }

  function AfterA(): State { StoreFresh(EMPTY, A_AT_0) }
  function HistoryA(): History { NextHistory(EMPTY, map[], A_AT_0) }
  function AfterB(): State { StoreFresh(AfterA(), B_AT_1) }
  function HistoryB(): History { NextHistory(AfterA(), HistoryA(), B_AT_1) }
  function Forgotten(): State { MarkDispatched(SMALL, AfterB(), ["b", "a"]) }

  lemma AIsAdded()
    ensures Harvest([View(0, None, [A])]) == Ok([A_AT_0])
    ensures Add(SMALL, EMPTY, [A_AT_0]) == AddOutcome(AfterA(), None)
    ensures AddHistory(SMALL, EMPTY, map[], [A_AT_0]) == HistoryA()
    ensures AfterA().cursors == map[FIRST := Cursor(0, None, 1, map[0 := "a"])]
    ensures HistoryA() == map[FIRST := [Cursor(0, None, 1, map[0 := "a"])]]
    ensures AfterA().pending.entries.Keys == {"a"} && AfterA().dead == Empty() && AfterA().dispatched == Empty()
  {
    HarvestSingle(View(0, None, [A]), A);
    AddFresh(EMPTY, map[], A_AT_0);
  }

  lemma BIsAdded()
    ensures Harvest([View(1, Some(0), [B])]) == Ok([B_AT_1])
    ensures Add(SMALL, AfterA(), [B_AT_1]) == AddOutcome(AfterB(), None)
    ensures AddHistory(SMALL, AfterA(), HistoryA(), [B_AT_1]) == HistoryB()
    ensures AfterB().cursors == map[FIRST := Cursor(1, Some(0), 1, map[0 := "b"])]
    ensures HistoryB() == map[FIRST := [Cursor(0, None, 1, map[0 := "a"]), Cursor(1, Some(0), 1, map[0 := "b"])]]
    ensures AfterB().pending.entries.Keys == {"a", "b"} && AfterB().dead == Empty() && AfterB().dispatched == Empty()
  {
    AIsAdded();
    HarvestSingle(View(1, Some(0), [B]), B);
    AddFresh(AfterA(), HistoryA(), B_AT_1);
    var first, second := Cursor(0, None, 1, map[0 := "a"]), Cursor(1, Some(0), 1, map[0 := "b"]);
    assert HistoryB() == HistoryA()[FIRST := [first] + [second]];
    assert [first] + [second] == [first, second];
  }

  lemma MarkTwo(s: State, x: string, y: string)
    ensures MarkDispatched(SMALL, s, [x, y]) == MarkOneDispatched(SMALL, MarkOneDispatched(SMALL, s, x), y)
  {
    var ids := [x, y];
    assert ids[..1] == [x] && [x][..0] == [];
    hide MarkOneDispatched;
    assert MarkDispatched(SMALL, s, []) == s;
    assert MarkDispatched(SMALL, s, [x]) == MarkOneDispatched(SMALL, s, x);
  }

  /** The first acknowledgement leaves the one receipt of b. */
  lemma BIsRemembered(s: State)
    requires s.pending.entries.Keys == {"a", "b"} && s.dead == Empty() && s.dispatched == Empty()
    ensures var one := MarkOneDispatched(SMALL, s, "b");
            && one.cursors == s.cursors && one.dead == Empty() && one.pending.entries.Keys == {"a"}
            && one.dispatched.order == ["b"] && one.dispatched.entries.Keys == {"b"}
  {
    assert Without([], "b") == [];
    assert s.dispatched.Delete("b") == Empty();
    assert s.dead.Delete("b") == Empty();
  }

  /** Acknowledging b and then a leaves the one receipt of a. */
  lemma BIsForgotten()
    ensures Forgotten().cursors == map[FIRST := Cursor(1, Some(0), 1, map[0 := "b"])]
    ensures !IsKnown(Forgotten(), "b")
  {
    BIsAdded();
    var s := AfterB();
    MarkTwo(s, "b", "a");
    BIsRemembered(s);
    var one := MarkOneDispatched(SMALL, s, "b");
    hide AfterB, MarkDispatched;
    var receipt := Receipt(one.pending.entries["a"].source, Unlinked(one.pending.entries["a"].position));
    OneReceipt(one.dispatched, "b", "a", receipt);
    AckForgets(one, receipt);
  }

  lemma AckForgets(one: State, receipt: Receipt)
    requires one.pending.entries.Keys == {"a"} && one.dead == Empty()
    requires receipt == Receipt(one.pending.entries["a"].source, Unlinked(one.pending.entries["a"].position))
    requires !RememberDispatched(1, one.dispatched, "a", receipt).Has("b")
    ensures MarkOneDispatched(SMALL, one, "a").cursors == one.cursors
    ensures !IsKnown(MarkOneDispatched(SMALL, one, "a"), "b")
  {
    hide RememberDispatched;
  }

  lemma OneReceipt(d: OrderedMap<string, Receipt>, prior: string, id: string, r: Receipt)
    requires d.order == [prior] && d.entries.Keys == {prior} && prior != id
    ensures !RememberDispatched(1, d, id, r).Has(prior)
  {
    assert Without([prior], id) == [prior] by {
      assert [prior][1..] == [];
      assert Without([], id) == [];
    }
    var moved := d.Delete(id).Set(id, r);
    assert moved.order == [prior, id];
    assert moved.order[1..] == [id];
    var rest := OrderedMap([id], moved.entries - {prior});
    assert Evict(1, rest) == rest;
    assert Evict(1, moved) == Evict(1, rest);
  }

  lemma BIsAddedAgain()
    ensures Harvest([View(2, Some(0), [B])]) == Ok([B_AT_2])
    ensures Add(SMALL, Forgotten(), [B_AT_2]).error.None?
    ensures var h := AddHistory(SMALL, Forgotten(), HistoryB(), [B_AT_2]);
            OwnerAt(h, FIRST, 1, 0, "b") && OwnerAt(h, FIRST, 2, 0, "b")
  {
    BIsAdded();
    BIsForgotten();
    HarvestSingle(View(2, Some(0), [B]), B);
    AddFresh(Forgotten(), HistoryB(), B_AT_2);
  }

  const CARRIES_B := Instance(FIRST, View(1, Some(0), [B]))

  function Acked(v: nat): Instance { Instance(FIRST, View(v, Some(v), [])) }

  lemma UpToA()
    ensures IsRun(SMALL, TWICE[..3])
    ensures Run(SMALL, TWICE[..3]) == World(AfterA(), HistoryA(), map[FIRST := 0], map[0 := Acked(0)], {"a"}, {})
  {
    hide Next, Enabled, AfterA, HistoryA;
    assert TWICE[..0] == [];
    Created(START, 0, FIRST);
    Advance(TWICE, 0);
    var w1 := World(EMPTY, map[], map[], map[0 := Instance(FIRST, View(0, None, []))], {}, {});
    Recorded(w1, 0, A);
    Advance(TWICE, 1);
    AIsAdded();
    var w2 := World(EMPTY, map[], map[], map[0 := Instance(FIRST, View(0, None, [A]))], {"a"}, {});
    assert Run(SMALL, TWICE[..2]) == w2;
    Committed(w2, 0, Saved, Succeeds, [A_AT_0], AfterA(), HistoryA());
    Advance(TWICE, 2);
  }

  lemma BRecorded()
    ensures IsRun(SMALL, TWICE[..5])
    ensures Run(SMALL, TWICE[..5])
            == World(AfterA(), HistoryA(), map[FIRST := 0], map[0 := Acked(0), 1 := CARRIES_B], {"a", "b"}, {})
  {
    hide Next, Enabled, AfterA, HistoryA, Run, IsRun;
    UpToA();
    var w3 := Run(SMALL, TWICE[..3]);
    Loaded(w3, 1, FIRST, 0);
    Advance(TWICE, 3);
    var w4 := Run(SMALL, TWICE[..4]);
    Recorded(w4, 1, B);
    Advance(TWICE, 4);
  }

  lemma BLands(w: World)
    requires w == World(AfterA(), HistoryA(), map[FIRST := 0], map[0 := Acked(0), 1 := CARRIES_B], {"a", "b"}, {})
    ensures Enabled(w, Commit([(1, Saved)], FailsApplied))
    ensures Next(SMALL, w, Commit([(1, Saved)], FailsApplied))
            == World(AfterB(), HistoryB(), map[FIRST := 1], w.instances, {"a", "b"}, {1})
  {
    BIsAdded();
    hide AfterA, HistoryA, AfterB, HistoryB, Add, AddHistory, Harvest, Next, Enabled;
    assert w.db[FIRST := 1] == map[FIRST := 1];
    Committed(w, 1, Saved, FailsApplied, [B_AT_1], AfterB(), HistoryB());
  }

  lemma UpToB()
    ensures IsRun(SMALL, TWICE[..6])
    ensures Run(SMALL, TWICE[..6])
            == World(AfterB(), HistoryB(), map[FIRST := 1], map[0 := Acked(0), 1 := CARRIES_B], {"a", "b"}, {1})
  {
    hide Next, Enabled, AfterA, HistoryA, AfterB, HistoryB, Run, IsRun;
    BRecorded();
    BLands(Run(SMALL, TWICE[..5]));
    Advance(TWICE, 5);
  }

  /** Up to here the outbox stays as it is after b, and instance 1 still carries it. */
  ghost predicate StillCarriesB(w: World, version: Option<nat>) {
    && w.outbox == AfterB() && w.history == HistoryB()
    && w.db == (if version.Some? then map[FIRST := version.value] else map[])
    && 1 in w.instances && w.instances[1] == CARRIES_B && w.landed == {1}
  }

  /** A commit without events changes the row and nothing in the outbox. */
  lemma SilentCommit(w: World, i: nat, d: Disposition)
    requires i in w.instances && WriteSucceeds(w, w.instances[i], d) && w.instances[i].view.pendingEvents == []
    ensures Enabled(w, Commit([(i, d)], Succeeds))
    ensures var w', e := Next(SMALL, w, Commit([(i, d)], Succeeds)), w.instances[i];
            && w' == w.(db := w'.db, instances := w'.instances)
            && w'.db == (if d.Deleted? then w.db - {e.address} else w.db[e.address := e.view.version])
            && w'.instances.Keys == w.instances.Keys
            && forall j :: j in w.instances && j != i ==> w'.instances[j] == w.instances[j]
  {
    HarvestNone(w.instances[i].view);
    AddNone(w.outbox, w.history);
    hide Add, AddHistory, Harvest, Next, Enabled, Acknowledged;
    Committed(w, i, d, Succeeds, [], w.outbox, w.history);
  }

  lemma UpToDeleted()
    ensures IsRun(SMALL, TWICE[..8]) && StillCarriesB(Run(SMALL, TWICE[..8]), None)
    ensures Run(SMALL, TWICE[..8]).instances.Keys == {0, 1, 2}
  {
    hide Next, Enabled, AfterB, HistoryB, Run, IsRun;
    UpToB();
    var w6 := Run(SMALL, TWICE[..6]);
    Loaded(w6, 2, FIRST, 1);
    Advance(TWICE, 6);
    var w7 := Run(SMALL, TWICE[..7]);
    SilentCommit(w7, 2, Deleted);
    Advance(TWICE, 7);
  }

  lemma UpToRecreated()
    ensures IsRun(SMALL, TWICE[..10]) && StillCarriesB(Run(SMALL, TWICE[..10]), Some(0))
  {
    hide Next, Enabled, AfterB, HistoryB, Run, IsRun;
    UpToDeleted();
    var w8 := Run(SMALL, TWICE[..8]);
    Created(w8, 3, FIRST);
    Advance(TWICE, 8);
    var w9 := Run(SMALL, TWICE[..9]);
    SilentCommit(w9, 3, Saved);
    Advance(TWICE, 9);
  }

  lemma UpToRetry()
    ensures IsRun(SMALL, TWICE[..12])
    ensures var w := Run(SMALL, TWICE[..12]);
            && w.outbox == Forgotten() && w.history == HistoryB() && w.db == map[FIRST := 0]
            && 1 in w.instances && w.instances[1] == Instance(FIRST, View(2, Some(0), [B])) && w.landed == {1}
  {
    UpToRecreated();
    hide AfterB, HistoryB, Run, IsRun, DoCommit, MarkDispatched;
    var w10 := Run(SMALL, TWICE[..10]);
    Advance(TWICE, 10);
    var w11 := Run(SMALL, TWICE[..11]);
    assert w11 == w10.(outbox := Forgotten());
    hide Next, Enabled;
    Bumped(w11, 1);
    Advance(TWICE, 11);
  }

  /** The run is possible, and b stands in two commits. Its last step is not careful: instance 1
      still carries what landed. */
  lemma RetriedAfterRecreation()
    ensures IsRun(SMALL, TWICE)
    ensures var h := Run(SMALL, TWICE).history;
            OwnerAt(h, FIRST, 1, 0, "b") && OwnerAt(h, FIRST, 2, 0, "b")
    ensures IsRun(SMALL, TWICE[..12]) && !Careful(Run(SMALL, TWICE[..12]), TWICE[12])
  {
    hide AfterB, HistoryB, Run, IsRun, Next, Enabled, Forgotten, OwnerAt;
    UpToRetry();
    BIsAddedAgain();
    var w := Run(SMALL, TWICE[..12]);
    var added := Add(SMALL, Forgotten(), [B_AT_2]);
    Committed(w, 1, Saved, Succeeds, [B_AT_2], added.state, AddHistory(SMALL, Forgotten(), HistoryB(), [B_AT_2]));
    Advance(TWICE, 12);
    assert TWICE[..13] == TWICE;
    assert TWICE[12].enrolled[0].0 == 1;
  }

  // ---- an address created again below its head ----

  /** Order 1 once reached version 2; created again, it is harvested at version 1 after another
      aggregate: the batch passes the pre-checks, is refused for the stale head, and leaves the
      other aggregate's event stored. */
  lemma RecreatedBelowHead()
    ensures var s := Add(SMALL, EMPTY, [Candidate(A, FIRST, CandidatePosition(2, 0, 1))]).state;
            var vs := [View(1, None, [OTHER]), View(1, None, [C])];
            && Harvest(vs).Ok? && Precheck(SMALL, s, Harvest(vs).value).None?
            && var r := Add(SMALL, s, Harvest(vs).value);
               r.error == Some(StaleHead) && r.state != s && r.state.pending.Has("d")
  {
    var a := Candidate(A, FIRST, CandidatePosition(2, 0, 1));
    AddFresh(EMPTY, map[], a);
    var s := StoreFresh(EMPTY, a);
    var good := Candidate(OTHER, SECOND, CandidatePosition(1, 0, 1));
    var stale := Candidate(C, FIRST, CandidatePosition(1, 0, 1));
    AddFresh(s, map[], good);
    TwoHarvested(View(1, None, [OTHER]), OTHER, View(1, None, [C]), C);
    StaleAfterGood(s, good, stale);
  }

  lemma TwoHarvested(v: View, e: Event, u: View, f: Event)
    requires v.pendingEvents == [e] && Addressed(e) && Advanced(v)
    requires u.pendingEvents == [f] && Addressed(f) && Advanced(u)
    ensures Harvest([v, u]) == Ok([AtZero(e, v.version), AtZero(f, u.version)])
  {
    HarvestSingle(v, e);
    HarvestOfOne(u, f);
    hide HarvestOne;
    assert [v, u][..1] == [v] && [v, u][1] == u;
    assert [AtZero(e, v.version)] + [AtZero(f, u.version)] == [AtZero(e, v.version), AtZero(f, u.version)];
  }

  lemma StaleAfterGood(s: State, good: Candidate, stale: Candidate)
    requires AcceptsFresh(s, good) && Add(SMALL, s, [good]) == AddOutcome(StoreFresh(s, good), None)
    requires good.event.eventId != stale.event.eventId && good.source != stale.source && IsFresh(s, stale)
    requires BehindHead(s.cursors, stale)
    ensures Precheck(SMALL, s, [good, stale]).None?
    ensures Add(SMALL, s, [good, stale]) == AddOutcome(StoreFresh(s, good), Some(StaleHead))
  {
    var cs := [good, stale];
    assert cs[..1] == [good] && [good][..0] == [];
    assert FirstReceipts([]) == map[];
    assert Simulate(s.cursors, []) == Ok(s.cursors);
    assert StoredMismatch(s, stale).None? && StoredMismatch(StoreFresh(s, good), stale).None?;
    assert BatchMismatch(s, FirstReceipts([good]), stale).None?;
    assert Simulate(s.cursors, [good]).Ok?;
    assert Simulate(s.cursors, cs).Ok?;
    assert AddOne(SMALL, StoreFresh(s, good), stale) == Err(StaleHead);
  }
}
