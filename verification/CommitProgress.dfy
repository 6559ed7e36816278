/** What a commit achieves: when it lands in a reachable world, and what it then leaves. */
module CommitProgress {
  import opened Common
  import opened Outboxes
  import opened OutboxChain
  import opened OutboxProperties
  import opened OutboxVerdicts
  import opened PipelineTheorems
  import opened CommitScopes
  import opened WithCommits
  import opened HarvestedBatches
  import opened HarvestedQueues
  import opened CommitRuns

  // ---- a harvest against the pre-checks ----

  /** A harvest of new events above their heads contradicts nothing that is stored, nor itself. */
  lemma HarvestAgrees(s: State, h: History, es: seq<Enrolled>, cs: seq<Candidate>)
    requires ChainInv(s, h) && HarvestOf(h, es, cs) && FirstAbove(s.cursors, es, |es|)
    ensures ReceiptsAgree(s, cs) && PositionsAgree(s.cursors, cs)
  {
    HarvestIsNew(s, h, es);
    hide ChainInv, Harvest, NoneCommitted;
    forall n: nat | n < |cs| ensures AgreesWithStored(s, cs[n]) && PositionAgrees(s.cursors, cs, n) {
      var i, k := HarvestedAt(es, h, n);
      assert IsAbove(s.cursors, es[i]);
      forall m | 0 <= m < n ensures !ContradictEachOther(cs[m], cs[n]) {
        OneCommitEach(es, h, cs, m, n);
      }
    }
  }

  lemma OneCommitEach(es: seq<Enrolled>, h: History, cs: seq<Candidate>, m: nat, n: nat)
    requires HarvestOf(h, es, cs) && m < n < |cs|
    ensures !ContradictEachOther(cs[m], cs[n])
  {
    HarvestPlaces(h, es, m, n);
    var i, k := HarvestedAt(es, h, m);
    var j, q := HarvestedAt(es, h, n);
    hide Harvest, CarriesNew;
    assert cs[m].source == cs[n].source ==> i == j;
  }

  /** The records and sources stored after the batch stay within the configured limits. */
  ghost predicate HasRoom(l: Limits, s: State, cs: seq<Candidate>) {
    && (l.maxRecords.Some? ==> |StoredAfter(s, cs)| <= l.maxRecords.value)
    && (l.maxSources.Some? ==> |SourcesAfter(s, cs)| <= l.maxSources.value)
  }

  // ---- the rows ----

  /** Each enrolled row is written at its version or removed, and no other row is touched. */
  ghost predicate RowsFollow(db: map<Address, nat>, es: seq<Enrolled>, db': map<Address, nat>) {
    && (forall i :: 0 <= i < |es| ==>
          if es[i].disposition.Saved? then es[i].address in db' && db'[es[i].address] == es[i].view.version
          else es[i].address !in db')
    && (forall a :: NotAmong(es, a) ==> (a in db' <==> a in db) && (a in db ==> db'[a] == db[a]))
  }

  lemma {:induction false} WrittenRowsFollow(db: map<Address, nat>, es: seq<Enrolled>)
    requires forall i, j :: 0 <= i < j < |es| ==> es[i].address != es[j].address
    ensures RowsFollow(db, es, WriteRows(db, es))
  {
    if |es| > 0 {
      WrittenRowsFollow(db, es[..|es| - 1]);
      OneMoreRow(db, es, WriteRows(db, es[..|es| - 1]));
      hide RowsFollow;
    }
  }

  lemma OneMoreRow(db: map<Address, nat>, es: seq<Enrolled>, before: map<Address, nat>)
    requires |es| > 0 && RowsFollow(db, es[..|es| - 1], before)
    requires forall i, j :: 0 <= i < j < |es| ==> es[i].address != es[j].address
    ensures RowsFollow(db, es, WriteRow(before, es[|es| - 1]))
  {
    var init, last := es[..|es| - 1], es[|es| - 1];
    forall a | NotAmong(es, a) ensures NotAmong(init, a) && last.address != a {
      assert last in es;
    }
    assert forall i :: 0 <= i < |init| ==> init[i] == es[i] && init[i].address != last.address;
    hide NotAmong;
  }

  // ---- the commit ----

  /** After a call that returned, an enrolled instance has no pending events and the version it had; a
      saved one persisted that version, a deleted one what it had persisted. */
  ghost predicate IsClean(before: Instance, after: Instance, d: Disposition) {
    && after.address == before.address && after.view.version == before.view.version
    && after.view.pendingEvents == []
    && after.view.persistedVersion == if d.Saved? then Some(before.view.version) else before.view.persistedVersion
  }

  ghost predicate InstancesFollow(before: map<nat, Instance>, after: map<nat, Instance>,
                                  enrolled: seq<(nat, Disposition)>) {
    && after.Keys == before.Keys
    && (forall k :: 0 <= k < |enrolled| ==>
          enrolled[k].0 in before && IsClean(before[enrolled[k].0], after[enrolled[k].0], enrolled[k].1))
    && (forall i :: i in before && NotEnrolled(enrolled, i) ==> after[i] == before[i])
  }

  /** The commit landed: its rows are written, its events are in the outbox and extend their chains by
      one whole commit each, and the instances are clean unless the call threw all the same. */
  ghost predicate HasLanded(w: World, w': World, enrolled: seq<(nat, Disposition)>, transaction: StorageCall,
                            cs: seq<Candidate>)
    requires forall k :: 0 <= k < |enrolled| ==> enrolled[k].0 in w.instances
  {
    var es := EnrolledOf(w, enrolled);
    && RowsFollow(w.db, es, w'.db)
    && AllAdded(w.outbox, w.history, es, w'.outbox, w'.history)
    && (forall n :: 0 <= n < |cs| ==> IsKnown(w'.outbox, cs[n].event.eventId))
    && if transaction.Succeeds? then InstancesFollow(w.instances, w'.instances, enrolled)
       else w'.instances == w.instances
  }

  lemma InstancesAreClean(instances: map<nat, Instance>, enrolled: seq<(nat, Disposition)>)
    requires forall k :: 0 <= k < |enrolled| ==> enrolled[k].0 in instances
    requires forall j, k :: 0 <= j < k < |enrolled| ==> enrolled[j].0 != enrolled[k].0
    ensures InstancesFollow(instances, AcknowledgeAll(instances, enrolled), enrolled)
  {
    AcknowledgedEach(instances, enrolled);
    hide AcknowledgeAll;
  }

  /** In every reachable world: a commit whose eventful instances are above the heads the outbox
      retains lands if and only if there is room for its events and the transaction is not refused;
      otherwise nothing changes. */
  lemma CommitLandsIff(l: Limits, steps: seq<Step>, enrolled: seq<(nat, Disposition)>, transaction: StorageCall,
                       cs: seq<Candidate>)
    requires Attempt(l, steps, enrolled, cs)
    requires FirstAbove(Run(l, steps).outbox.cursors, EnrolledOf(Run(l, steps), enrolled), |enrolled|)
    ensures var w := Run(l, steps);
            if HasRoom(l, w.outbox, cs) && !transaction.FailsUnapplied?
            then HasLanded(w, DoCommit(l, w, enrolled, transaction), enrolled, transaction, cs)
            else DoCommit(l, w, enrolled, transaction) == w
  {
    var w := Run(l, steps);
    var es := EnrolledOf(w, enrolled);
    RunKeepsInv(l, steps);
    EnrolledIsHarvest(l, w, enrolled);
    InvParts(l, w);
    HarvestTakenIff(l, w, es, cs);
    hide Run, IsCareful, WorldInv, WholeCommits, Add, AddHistory, Harvest, HasRoom, HasLanded, Inv, HarvestOf;
    hide WriteRows, AcknowledgeAll;
    if HasRoom(l, w.outbox, cs) && !transaction.FailsUnapplied? {
      LandedParts(l, w, enrolled, transaction, cs);
    }
  }

  lemma HarvestTakenIff(l: Limits, w: World, es: seq<Enrolled>, cs: seq<Candidate>)
    requires ValidLimits(l) && Inv(l, w.outbox, w.history) && WholeCommits(w.history)
    requires HarvestOf(w.history, es, cs) && FirstAbove(w.outbox.cursors, es, |es|)
    ensures Add(l, w.outbox, cs).error.None? <==> HasRoom(l, w.outbox, cs)
    ensures Add(l, w.outbox, cs).error.Some? ==> Add(l, w.outbox, cs).state == w.outbox
  {
    HarvestAgrees(w.outbox, w.history, es, cs);
    PrecheckVerdict(l, w.outbox, cs);
    hide ReceiptsAgree, PositionsAgree, StoredAfter, SourcesAfter, AddLoop, Inv, HarvestOf, Precheck, WholeCommits;
    if Precheck(l, w.outbox, cs).None? {
      HarvestStaleIff(l, w.outbox, w.history, es, cs);
      forall i | 0 <= i < |es| ensures !IsBelow(w.outbox.cursors, es[i]) {
        assert IsAbove(w.outbox.cursors, es[i]);
      }
    }
  }

  lemma LandedParts(l: Limits, w: World, enrolled: seq<(nat, Disposition)>, transaction: StorageCall,
                    cs: seq<Candidate>)
    requires ValidLimits(l) && Inv(l, w.outbox, w.history) && WholeCommits(w.history)
    requires Enabled(w, Commit(enrolled, transaction)) && HarvestOf(w.history, EnrolledOf(w, enrolled), cs)
    requires Add(l, w.outbox, cs).error.None? && !transaction.FailsUnapplied?
    ensures HasLanded(w, DoCommit(l, w, enrolled, transaction), enrolled, transaction, cs)
  {
    var es := EnrolledOf(w, enrolled);
    var s', h' := Add(l, w.outbox, cs).state, AddHistory(l, w.outbox, w.history, cs);
    EventsAreAdded(l, w, es, cs);
    assert Harvest(ViewsOf(es)) == Ok(cs);
    WrittenRowsFollow(w.db, es);
    InstancesAreClean(w.instances, enrolled);
    hide Inv, WholeCommits, HarvestOf, Add, AddHistory, Harvest, AllAdded, RowsFollow, InstancesFollow, WriteRows;
    hide AcknowledgeAll, IsKnown;
  }

  lemma EventsAreAdded(l: Limits, w: World, es: seq<Enrolled>, cs: seq<Candidate>)
    requires ValidLimits(l) && Inv(l, w.outbox, w.history) && WholeCommits(w.history)
    requires HarvestOf(w.history, es, cs) && Add(l, w.outbox, cs).error.None?
    ensures AllAdded(w.outbox, w.history, es, Add(l, w.outbox, cs).state, AddHistory(l, w.outbox, w.history, cs))
    ensures forall n :: 0 <= n < |cs| ==> IsKnown(Add(l, w.outbox, cs).state, cs[n].event.eventId)
  {
    AcceptedPasses(l, w.outbox, cs);
    var n := HarvestOutcome(l, w.outbox, w.history, es, cs);
    hide Inv, WholeCommits, Add, AddHistory, Harvest, IsKnown, Precheck;
    assert n == |es| && es[..n] == es;
    forall x | 0 <= x < |cs| ensures CarriesId(es, cs[x].event.eventId) {
      var i, k := HarvestedAt(es, w.history, x);
    }
  }
}
