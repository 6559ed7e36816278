/** Many instances of many aggregates committing against one database and one outbox: every
    harvested batch extends the commit chain by whole commits, or changes nothing. Rows may be
    deleted and their addresses created again, while the outbox keeps the old heads. */
module CommitRuns {
  import opened Common
  import opened Outboxes
  import opened OutboxChain
  import opened OutboxProperties
  import opened CommitScopes
  import opened WithCommits
  import opened PipelineTheorems
  import opened HarvestedBatches

  datatype Instance = Instance(address: Address, view: View)

  /** `db` is the version each aggregate's row carries, `minted` the event ids ever recorded,
      `landed` the instances whose commit landed although its call threw: they still carry the
      events the outbox took. */
  datatype World = World(
    outbox: State,
    history: History,
    db: map<Address, nat>,
    instances: map<nat, Instance>,
    minted: set<string>,
    landed: set<nat>)

  datatype Step =
    | Create(instance: nat, address: Address)
    | Load(instance: nat, address: Address)
    | Mutate(instance: nat, events: seq<Event>, bump: bool)
    | Commit(enrolled: seq<(nat, Disposition)>, transaction: StorageCall)
    | MarkSent(ids: seq<string>)
    | MarkUnsent(id: string, error: string)

  const START := World(EMPTY, map[], map[], map[], {}, {})

  function EnrolledOf(w: World, enrolled: seq<(nat, Disposition)>): (es: seq<Enrolled>)
    requires forall i :: 0 <= i < |enrolled| ==> enrolled[i].0 in w.instances
    ensures |es| == |enrolled|
    ensures forall i :: 0 <= i < |es| ==>
              es[i] == Enrolled(w.instances[enrolled[i].0].address, w.instances[enrolled[i].0].view, enrolled[i].1)
  {
    seq(|enrolled|, i requires 0 <= i < |enrolled| =>
      Enrolled(w.instances[enrolled[i].0].address, w.instances[enrolled[i].0].view, enrolled[i].1))
  }

  /** The repository write succeeds: an insert finds no row, an update or a delete finds the row as
      the instance last saw it. */
  predicate WriteSucceeds(w: World, i: Instance, d: Disposition) {
    && i.view.persistedVersion == (if i.address in w.db then Some(w.db[i.address]) else None)
    && (d.Deleted? ==> i.address in w.db)
  }

  /** Recorded events carry fresh ids and their own aggregate's address. */
  ghost predicate FreshEvents(w: World, a: Address, events: seq<Event>) {
    && AllFrom(events, a)
    && (forall k :: 0 <= k < |events| ==> events[k].eventId !in w.minted)
    && (forall j, k :: 0 <= j < k < |events| ==> events[j].eventId != events[k].eventId)
  }

  ghost predicate Enabled(w: World, step: Step) {
    match step
    case Create(i, a) => i !in w.instances
    case Load(i, a) => i !in w.instances && a in w.db
    case Mutate(i, events, _) => i in w.instances && FreshEvents(w, w.instances[i].address, events)
    case Commit(enrolled, _) =>
      && (forall k :: 0 <= k < |enrolled| ==>
            enrolled[k].0 in w.instances && WriteSucceeds(w, w.instances[enrolled[k].0], enrolled[k].1))
      && (forall j, k :: 0 <= j < k < |enrolled| ==>
            enrolled[j].0 != enrolled[k].0 && w.instances[enrolled[j].0].address != w.instances[enrolled[k].0].address)
    case MarkSent(_) => true
    case MarkUnsent(_, _) => true
  }

  /** The caller loads an aggregate again instead of committing an instance whose commit landed
      unseen. Without deletions the row's version enforces this (`NoDeletionIsCareful`). */
  predicate Careful(w: World, step: Step) {
    step.Commit? ==> forall k :: 0 <= k < |step.enrolled| ==> step.enrolled[k].0 !in w.landed
  }

  function IdsOf(events: seq<Event>): set<string> {
    set k | 0 <= k < |events| :: events[k].eventId
  }

  function Mutated(v: View, events: seq<Event>, bump: bool): View {
    v.(version := if bump then v.version + 1 else v.version, pendingEvents := v.pendingEvents + events)
  }

  /** Each enrolled row in order: written at the aggregate's version, or removed. */
  function WriteRows(db: map<Address, nat>, es: seq<Enrolled>): map<Address, nat> {
    if |es| == 0 then db else WriteRow(WriteRows(db, es[..|es| - 1]), es[|es| - 1])
  }

  function WriteRow(db: map<Address, nat>, e: Enrolled): map<Address, nat> {
    if e.disposition.Deleted? then db - {e.address} else db[e.address := e.view.version]
  }

  function Clean(i: Instance, d: Disposition): Instance {
    i.(view := Acknowledged(i.view, d))
  }

  function AcknowledgeAll(instances: map<nat, Instance>, enrolled: seq<(nat, Disposition)>): map<nat, Instance> {
    if |enrolled| == 0 then instances else
    var before := AcknowledgeAll(instances, enrolled[..|enrolled| - 1]);
    var last := enrolled[|enrolled| - 1];
    if last.0 in before then before[last.0 := Clean(before[last.0], last.1)] else before
  }

  /** The enrolled instances that carry events. */
  function EventfulOf(w: World, enrolled: seq<(nat, Disposition)>): set<nat>
    requires forall k :: 0 <= k < |enrolled| ==> enrolled[k].0 in w.instances
  {
    set k | 0 <= k < |enrolled| && |w.instances[enrolled[k].0].view.pendingEvents| > 0 :: enrolled[k].0
  }

  /** One `withCommit` call. A transaction that throws after it landed leaves its instances
      unacknowledged, their events still pending although the outbox has them. */
  ghost function DoCommit(l: Limits, w: World, enrolled: seq<(nat, Disposition)>, transaction: StorageCall): World
    requires forall i :: 0 <= i < |enrolled| ==> enrolled[i].0 in w.instances
  {
    var es := EnrolledOf(w, enrolled);
    var harvested := Harvest(ViewsOf(es));
    if harvested.Err? then w else
    var added := Add(l, w.outbox, harvested.value);
    if added.error.Some? || transaction.FailsUnapplied? then w
    else
      var history := AddHistory(l, w.outbox, w.history, harvested.value);
      if transaction.Succeeds?
      then World(added.state, history, WriteRows(w.db, es), AcknowledgeAll(w.instances, enrolled), w.minted, w.landed)
      else World(added.state, history, WriteRows(w.db, es), w.instances, w.minted, w.landed + EventfulOf(w, enrolled))
  }

  ghost function Next(l: Limits, w: World, step: Step): World
    requires Enabled(w, step)
  {
    match step
    case Create(i, a) => w.(instances := w.instances[i := Instance(a, View(0, None, []))])
    case Load(i, a) => w.(instances := w.instances[i := Instance(a, View(w.db[a], Some(w.db[a]), []))])
    case Mutate(i, events, bump) =>
      w.(instances := w.instances[i := w.instances[i].(view := Mutated(w.instances[i].view, events, bump))],
         minted := w.minted + IdsOf(events))
    case Commit(enrolled, transaction) => DoCommit(l, w, enrolled, transaction)
    case MarkSent(ids) => w.(outbox := MarkDispatched(l, w.outbox, ids))
    case MarkUnsent(id, error) => w.(outbox := MarkFailed(l, w.outbox, id, error))
  }

  ghost predicate IsRun(l: Limits, steps: seq<Step>)
    decreases |steps|, 0
  {
    |steps| == 0
    || (IsRun(l, steps[..|steps| - 1]) && Enabled(Run(l, steps[..|steps| - 1]), steps[|steps| - 1]))
  }

  ghost function Run(l: Limits, steps: seq<Step>): World
    requires IsRun(l, steps)
    decreases |steps|, 1
  {
    if |steps| == 0 then START else Next(l, Run(l, steps[..|steps| - 1]), steps[|steps| - 1])
  }

  ghost predicate IsCareful(l: Limits, steps: seq<Step>) {
    && IsRun(l, steps)
    && (|steps| > 0 ==>
          IsCareful(l, steps[..|steps| - 1]) && Careful(Run(l, steps[..|steps| - 1]), steps[|steps| - 1]))
  }

  // ---- the invariant ----

  ghost predicate OwnersMinted(h: History, minted: set<string>) {
    forall a, i, k, id :: OwnerAt(h, a, i, k, id) ==> id in minted
  }

  ghost predicate InstanceOk(minted: set<string>, i: Instance) {
    && AllFrom(i.view.pendingEvents, i.address) && DistinctIds(i.view.pendingEvents)
    && (forall k :: 0 <= k < |i.view.pendingEvents| ==> i.view.pendingEvents[k].eventId in minted)
    && (i.view.persistedVersion.Some? ==> i.view.persistedVersion.value <= i.view.version)
  }

  ghost predicate InstancesOk(minted: set<string>, instances: map<nat, Instance>) {
    forall i :: i in instances ==> InstanceOk(minted, instances[i])
  }

  /** What an instance carries was never committed, unless its commit landed unseen. */
  ghost predicate PendingNew(h: History, instances: map<nat, Instance>, landed: set<nat>) {
    forall i :: i in instances && i !in landed ==> NoneCommitted(h, instances[i].view.pendingEvents)
  }

  ghost predicate ShareNothing(x: Instance, y: Instance) {
    forall k, m :: 0 <= k < |x.view.pendingEvents| && 0 <= m < |y.view.pendingEvents| ==>
      x.view.pendingEvents[k].eventId != y.view.pendingEvents[m].eventId
  }

  ghost predicate NoEventShared(instances: map<nat, Instance>) {
    forall i, j :: i in instances && j in instances && i != j ==> ShareNothing(instances[i], instances[j])
  }

  ghost predicate WorldInv(l: Limits, w: World) {
    && Inv(l, w.outbox, w.history)
    && WholeCommits(w.history) && OwnedOnce(w.history) && OwnersMinted(w.history, w.minted)
    && InstancesOk(w.minted, w.instances) && NoEventShared(w.instances)
    && PendingNew(w.history, w.instances, w.landed)
  }

  // ---- a commit attempt ----

  lemma EnrolledSeparate(w: World, enrolled: seq<(nat, Disposition)>)
    requires NoEventShared(w.instances) && Enabled(w, Commit(enrolled, Succeeds))
    ensures Separate(EnrolledOf(w, enrolled))
  {
    var es := EnrolledOf(w, enrolled);
    forall i, j | 0 <= i < j < |es| ensures ShareNothing(w.instances[enrolled[i].0], w.instances[enrolled[j].0]) {
    }
  }

  /** What a careful commit attempt harvests is new. */
  lemma EnrolledIsHarvest(l: Limits, w: World, enrolled: seq<(nat, Disposition)>)
    requires WorldInv(l, w) && Enabled(w, Commit(enrolled, Succeeds)) && Careful(w, Commit(enrolled, Succeeds))
    requires Harvest(ViewsOf(EnrolledOf(w, enrolled))).Ok?
    ensures HarvestOf(w.history, EnrolledOf(w, enrolled), Harvest(ViewsOf(EnrolledOf(w, enrolled))).value)
  {
    var es := EnrolledOf(w, enrolled);
    EnrolledSeparate(w, enrolled);
    hide Inv, WholeCommits, OwnedOnce, OwnersMinted, NoEventShared, Harvest, Separate, NoneCommitted, WriteSucceeds;
    forall k | 0 <= k < |es| ensures CarriesNew(w.history, es[k]) {
      assert InstanceOk(w.minted, w.instances[enrolled[k].0]);
      assert NoneCommitted(w.history, w.instances[enrolled[k].0].view.pendingEvents);
    }
  }

  lemma InvParts(l: Limits, w: World)
    requires WorldInv(l, w)
    ensures Inv(l, w.outbox, w.history) && WholeCommits(w.history) && HeadsAreLast(w.outbox.cursors, w.history)
  {
  }

  ghost predicate NotEnrolled(enrolled: seq<(nat, Disposition)>, i: nat) {
    forall k :: 0 <= k < |enrolled| ==> enrolled[k].0 != i
  }

  lemma {:induction false} AcknowledgedEach(instances: map<nat, Instance>, enrolled: seq<(nat, Disposition)>)
    requires forall k :: 0 <= k < |enrolled| ==> enrolled[k].0 in instances
    requires forall j, k :: 0 <= j < k < |enrolled| ==> enrolled[j].0 != enrolled[k].0
    ensures AcknowledgeAll(instances, enrolled).Keys == instances.Keys
    ensures forall k :: 0 <= k < |enrolled| ==>
              AcknowledgeAll(instances, enrolled)[enrolled[k].0] == Clean(instances[enrolled[k].0], enrolled[k].1)
    ensures forall i :: i in instances && NotEnrolled(enrolled, i) ==>
            AcknowledgeAll(instances, enrolled)[i] == instances[i]
  {
    if |enrolled| > 0 {
      var n := |enrolled| - 1;
      var init, i := enrolled[..n], enrolled[n].0;
      AcknowledgedEach(instances, init);
      assert NotEnrolled(init, i);
      var before := AcknowledgeAll(instances, init);
      assert AcknowledgeAll(instances, enrolled) == before[i := Clean(before[i], enrolled[n].1)];
      hide Clean, AcknowledgeAll;
      forall k | 0 <= k < n
        ensures enrolled[k].0 != i && before[enrolled[k].0] == Clean(instances[enrolled[k].0], enrolled[k].1) {
        assert init[k] == enrolled[k];
      }
      forall j | j in instances && NotEnrolled(enrolled, j) ensures NotEnrolled(init, j) && j != i {
      }
    }
  }

  lemma CarriedByNone(w: World, enrolled: seq<(nat, Disposition)>, i: nat, x: string)
    requires NoEventShared(w.instances) && i in w.instances
    requires forall k :: 0 <= k < |enrolled| ==> enrolled[k].0 in w.instances && enrolled[k].0 != i
    requires exists k ::
               0 <= k < |w.instances[i].view.pendingEvents| && w.instances[i].view.pendingEvents[k].eventId == x
    ensures !CarriesId(EnrolledOf(w, enrolled), x)
  {
    var es := EnrolledOf(w, enrolled);
    forall j, m | 0 <= j < |es| && 0 <= m < |es[j].view.pendingEvents|
      ensures es[j].view.pendingEvents[m].eventId != x {
      assert ShareNothing(w.instances[i], w.instances[enrolled[j].0]);
    }
  }

  lemma CarriedIsMinted(w: World, enrolled: seq<(nat, Disposition)>, x: string)
    requires InstancesOk(w.minted, w.instances)
    requires forall k :: 0 <= k < |enrolled| ==> enrolled[k].0 in w.instances
    requires CarriesId(EnrolledOf(w, enrolled), x)
    ensures x in w.minted
  {
    var es := EnrolledOf(w, enrolled);
    var i, k :| 0 <= i < |es| && 0 <= k < |es[i].view.pendingEvents| && es[i].view.pendingEvents[k].eventId == x;
    assert InstanceOk(w.minted, w.instances[enrolled[i].0]);
  }

  lemma AddedIsCarried(h: History, es: seq<Enrolled>, a: Address, i: int, k: int, x: string)
    ensures AddedAt(h, es, a, i, k, x) ==> CarriesId(es, x)
  {
  }

  lemma LandedMinted(w: World, enrolled: seq<(nat, Disposition)>, s': State, h': History)
    requires InstancesOk(w.minted, w.instances) && OwnersMinted(w.history, w.minted)
    requires forall k :: 0 <= k < |enrolled| ==> enrolled[k].0 in w.instances
    requires AllAdded(w.outbox, w.history, EnrolledOf(w, enrolled), s', h')
    ensures OwnersMinted(h', w.minted)
  {
    var es := EnrolledOf(w, enrolled);
    forall a, i, k, id | OwnerAt(h', a, i, k, id) ensures id in w.minted {
      OwnersAfter(w.outbox, w.history, es, s', h', a, i, k, id);
      hide AllAdded;
      if AddedAt(w.history, es, a, i, k, id) {
        AddedIsCarried(w.history, es, a, i, k, id);
        CarriedIsMinted(w, enrolled, id);
      }
    }
  }

  /** The events of an instance that was not enrolled stay uncommitted. */
  lemma BystanderStaysNew(w: World, enrolled: seq<(nat, Disposition)>, s': State, h': History, i: nat)
    requires NoEventShared(w.instances) && forall k :: 0 <= k < |enrolled| ==> enrolled[k].0 in w.instances
    requires AllAdded(w.outbox, w.history, EnrolledOf(w, enrolled), s', h')
    requires i in w.instances && NotEnrolled(enrolled, i) && NoneCommitted(w.history, w.instances[i].view.pendingEvents)
    ensures NoneCommitted(h', w.instances[i].view.pendingEvents)
  {
    var es := EnrolledOf(w, enrolled);
    var pending := w.instances[i].view.pendingEvents;
    forall n | 0 <= n < |pending| ensures NeverCommitted(h', pending[n].eventId) {
      var x := pending[n].eventId;
      CarriedByNone(w, enrolled, i, x);
      assert NeverCommitted(w.history, x);
      forall a, j, k ensures !OwnerAt(h', a, j, k, x) {
        if OwnerAt(h', a, j, k, x) {
          OwnersAfter(w.outbox, w.history, es, s', h', a, j, k, x);
          AddedIsCarried(w.history, es, a, j, k, x);
        }
      }
    }
  }

  lemma {:induction false} LandedPendingNew(w: World, enrolled: seq<(nat, Disposition)>, s': State, h': History)
    requires NoEventShared(w.instances) && PendingNew(w.history, w.instances, w.landed)
    requires forall k :: 0 <= k < |enrolled| ==> enrolled[k].0 in w.instances
    requires forall j, k :: 0 <= j < k < |enrolled| ==> enrolled[j].0 != enrolled[k].0
    requires AllAdded(w.outbox, w.history, EnrolledOf(w, enrolled), s', h')
    ensures PendingNew(h', AcknowledgeAll(w.instances, enrolled), w.landed)
    ensures PendingNew(h', w.instances, w.landed + EventfulOf(w, enrolled))
  {
    AcknowledgedEach(w.instances, enrolled);
    hide AllAdded, AcknowledgeAll, NoneCommitted, NoEventShared;
    forall i | i in w.instances && NotEnrolled(enrolled, i) && i !in w.landed
      ensures NoneCommitted(h', w.instances[i].view.pendingEvents) {
      BystanderStaysNew(w, enrolled, s', h', i);
    }
    forall i | i in w.instances && !NotEnrolled(enrolled, i)
      ensures NoneCommitted(h', AcknowledgeAll(w.instances, enrolled)[i].view.pendingEvents)
      ensures i in EventfulOf(w, enrolled) || NoneCommitted(h', w.instances[i].view.pendingEvents) {
      var k :| 0 <= k < |enrolled| && enrolled[k].0 == i;
      CleanIsNew(h', w.instances[i], enrolled[k].1);
      if w.instances[i].view.pendingEvents == [] {
        NothingIsNew(h');
      }
    }
  }

  lemma NothingIsNew(h: History)
    ensures NoneCommitted(h, [])
  {
  }

  lemma CleanIsNew(h: History, i: Instance, d: Disposition)
    ensures NoneCommitted(h, Clean(i, d).view.pendingEvents)
  {
  }

  lemma CleanIsOk(minted: set<string>, i: Instance, d: Disposition)
    requires InstanceOk(minted, i)
    ensures InstanceOk(minted, Clean(i, d)) && Clean(i, d).view.pendingEvents == []
  {
  }

  lemma AcknowledgedAreOk(w: World, enrolled: seq<(nat, Disposition)>)
    requires InstancesOk(w.minted, w.instances) && NoEventShared(w.instances)
    requires forall k :: 0 <= k < |enrolled| ==> enrolled[k].0 in w.instances
    requires forall j, k :: 0 <= j < k < |enrolled| ==> enrolled[j].0 != enrolled[k].0
    ensures InstancesOk(w.minted, AcknowledgeAll(w.instances, enrolled))
    ensures NoEventShared(AcknowledgeAll(w.instances, enrolled))
  {
    var after := AcknowledgeAll(w.instances, enrolled);
    AcknowledgedEach(w.instances, enrolled);
    hide AcknowledgeAll;
    forall i | i in after
      ensures InstanceOk(w.minted, after[i]) && (after[i].view.pendingEvents == [] || after[i] == w.instances[i]) {
      assert InstanceOk(w.minted, w.instances[i]);
      if k :| 0 <= k < |enrolled| && enrolled[k].0 == i {
        CleanIsOk(w.minted, w.instances[i], enrolled[k].1);
      } else {
        assert NotEnrolled(enrolled, i);
      }
    }
    hide InstanceOk, Clean;
    forall i, j | i in after && j in after && i != j ensures ShareNothing(after[i], after[j]) {
      assert ShareNothing(w.instances[i], w.instances[j]);
    }
  }

  /** A commit attempt that lands took the whole harvest. */
  lemma WentThrough(l: Limits, w: World, enrolled: seq<(nat, Disposition)>, transaction: StorageCall)
    requires ValidLimits(l) && WorldInv(l, w)
    requires Enabled(w, Commit(enrolled, transaction)) && Careful(w, Commit(enrolled, transaction))
    requires DoCommit(l, w, enrolled, transaction) != w
    ensures !transaction.FailsUnapplied? && Harvest(ViewsOf(EnrolledOf(w, enrolled))).Ok?
    ensures var es := EnrolledOf(w, enrolled);
            var cs := Harvest(ViewsOf(es)).value;
            && HarvestOf(w.history, es, cs) && Add(l, w.outbox, cs).error.None?
            && FirstAbove(w.outbox.cursors, es, |es|)
            && AllAdded(w.outbox, w.history, es, Add(l, w.outbox, cs).state, AddHistory(l, w.outbox, w.history, cs))
            && DoCommit(l, w, enrolled, transaction).history == AddHistory(l, w.outbox, w.history, cs)
            && DoCommit(l, w, enrolled, transaction).outbox == Add(l, w.outbox, cs).state
  {
    hide Harvest, Add, AddHistory, WorldInv;
    var es := EnrolledOf(w, enrolled);
    var cs := Harvest(ViewsOf(es)).value;
    EnrolledIsHarvest(l, w, enrolled);
    InvParts(l, w);
    hide Enabled, Inv, WholeCommits, HarvestOf;
    AcceptedPasses(l, w.outbox, cs);
    var n := HarvestOutcome(l, w.outbox, w.history, es, cs);
    assert n == |es|;
    assert es[..n] == es;
  }

  lemma AcceptedPasses(l: Limits, s: State, cs: seq<Candidate>)
    requires Add(l, s, cs).error.None?
    ensures Precheck(l, s, cs).None?
  {
  }

  lemma LandedKeepsInv(l: Limits, w: World, enrolled: seq<(nat, Disposition)>, s': State, h': History,
                       db': map<Address, nat>)
    requires ValidLimits(l) && WorldInv(l, w) && Enabled(w, Commit(enrolled, Succeeds)) && Inv(l, s', h')
    requires Separate(EnrolledOf(w, enrolled)) && AllAdded(w.outbox, w.history, EnrolledOf(w, enrolled), s', h')
    requires forall k :: 0 <= k < |enrolled| ==> CarriesNew(w.history, EnrolledOf(w, enrolled)[k])
    ensures WorldInv(l, World(s', h', db', AcknowledgeAll(w.instances, enrolled), w.minted, w.landed))
    ensures WorldInv(l, World(s', h', db', w.instances, w.minted, w.landed + EventfulOf(w, enrolled)))
  {
    hide Inv, WholeCommits, OwnedOnce, OwnersMinted, InstancesOk, NoEventShared, PendingNew, Separate, CarriesNew;
    hide AcknowledgeAll, AllAdded, WriteSucceeds, FreshCommits;
    var es := EnrolledOf(w, enrolled);
    WholeAfter(w.outbox, w.history, es, s', h');
    HarvestIsFresh(w.history, es);
    LandedOwnedOnce(w.outbox, w.history, es, s', h');
    LandedMinted(w, enrolled, s', h');
    LandedPendingNew(w, enrolled, s', h');
    AcknowledgedAreOk(w, enrolled);
  }

  lemma OutboxKept(l: Limits, s: State, h: History, es: seq<Enrolled>, cs: seq<Candidate>)
    requires ValidLimits(l) && Inv(l, s, h) && HarvestOf(h, es, cs)
    ensures Inv(l, Add(l, s, cs).state, AddHistory(l, s, h, cs))
  {
    HarvestHasNoRefresh(s, h, es);
    hide NoRefresh, Inv, HarvestOf;
    AddKeepsInvariants(l, s, h, cs);
  }

  lemma CommitKeepsInv(l: Limits, w: World, enrolled: seq<(nat, Disposition)>, transaction: StorageCall)
    requires ValidLimits(l) && WorldInv(l, w)
    requires Enabled(w, Commit(enrolled, transaction)) && Careful(w, Commit(enrolled, transaction))
    ensures WorldInv(l, DoCommit(l, w, enrolled, transaction))
  {
    hide WorldInv, Separate, AllAdded, CarriesNew, Harvest, Add, AddHistory, WriteRows, AcknowledgeAll, Careful;
    var es := EnrolledOf(w, enrolled);
    if DoCommit(l, w, enrolled, transaction) != w {
      WentThrough(l, w, enrolled, transaction);
      var cs := Harvest(ViewsOf(es)).value;
      InvParts(l, w);
      hide Inv, WholeCommits, WriteSucceeds, FirstAbove, HeadsAreLast;
      OutboxKept(l, w.outbox, w.history, es, cs);
      LandedKeepsInv(l, w, enrolled, Add(l, w.outbox, cs).state, AddHistory(l, w.outbox, w.history, cs),
                     WriteRows(w.db, es));
    }
  }

  // ---- the other steps ----

  lemma NewInstanceKeepsInv(l: Limits, w: World, i: nat, a: Address, v: View)
    requires WorldInv(l, w) && i !in w.instances && v.pendingEvents == []
    requires v.persistedVersion.Some? ==> v.persistedVersion.value <= v.version
    ensures WorldInv(l, w.(instances := w.instances[i := Instance(a, v)]))
  {
    hide Inv, WholeCommits, OwnedOnce, OwnersMinted;
    var instances' := w.instances[i := Instance(a, v)];
    forall x, y | x in instances' && y in instances' && x != y ensures ShareNothing(instances'[x], instances'[y]) {
      if x != i && y != i {
        assert ShareNothing(w.instances[x], w.instances[y]);
      }
    }
    hide NeverCommitted;
  }

  lemma MutatedIsOk(w: World, i: nat, events: seq<Event>, bump: bool)
    requires i in w.instances && InstanceOk(w.minted, w.instances[i]) && FreshEvents(w, w.instances[i].address, events)
    ensures InstanceOk(w.minted + IdsOf(events), w.instances[i].(view := Mutated(w.instances[i].view, events, bump)))
  {
    var pending := w.instances[i].view.pendingEvents;
    var all := pending + events;
    forall k | 0 <= k < |all|
      ensures Addressed(all[k]) && SourceOf(all[k]) == w.instances[i].address
      ensures all[k].eventId in w.minted + IdsOf(events) {
      if k < |pending| {
        assert all[k] == pending[k];
      } else {
        assert all[k] == events[k - |pending|];
      }
    }
    forall j, k | 0 <= j < k < |all| ensures all[j].eventId != all[k].eventId {
      if j < |pending| <= k {
        assert all[j] == pending[j] && all[k] == events[k - |pending|];
      }
    }
  }

  /** Newly recorded events are in no commit. */
  lemma MutatedIsNew(w: World, i: nat, events: seq<Event>, bump: bool)
    requires i in w.instances && OwnersMinted(w.history, w.minted) && FreshEvents(w, w.instances[i].address, events)
    requires NoneCommitted(w.history, w.instances[i].view.pendingEvents)
    ensures NoneCommitted(w.history, Mutated(w.instances[i].view, events, bump).pendingEvents)
  {
    var pending := w.instances[i].view.pendingEvents;
    forall n | 0 <= n < |pending + events| ensures NeverCommitted(w.history, (pending + events)[n].eventId) {
      if n < |pending| {
        assert (pending + events)[n] == pending[n];
      } else {
        assert (pending + events)[n] == events[n - |pending|];
      }
    }
  }

  lemma MutatedSharesNothing(w: World, i: nat, j: nat, events: seq<Event>, bump: bool)
    requires i in w.instances && j in w.instances && i != j && NoEventShared(w.instances)
    requires InstanceOk(w.minted, w.instances[j]) && FreshEvents(w, w.instances[i].address, events)
    ensures ShareNothing(w.instances[i].(view := Mutated(w.instances[i].view, events, bump)), w.instances[j])
    ensures ShareNothing(w.instances[j], w.instances[i].(view := Mutated(w.instances[i].view, events, bump)))
  {
    assert ShareNothing(w.instances[i], w.instances[j]) && ShareNothing(w.instances[j], w.instances[i]);
  }

  lemma MutateKeepsInstances(w: World, i: nat, events: seq<Event>, bump: bool)
    requires InstancesOk(w.minted, w.instances) && NoEventShared(w.instances) && Enabled(w, Mutate(i, events, bump))
    ensures var instances' := w.instances[i := w.instances[i].(view := Mutated(w.instances[i].view, events, bump))];
            InstancesOk(w.minted + IdsOf(events), instances') && NoEventShared(instances')
  {
    var instances' := w.instances[i := w.instances[i].(view := Mutated(w.instances[i].view, events, bump))];
    MutatedIsOk(w, i, events, bump);
    forall x, y | x in instances' && y in instances' && x != y ensures ShareNothing(instances'[x], instances'[y]) {
      if x == i {
        MutatedSharesNothing(w, i, y, events, bump);
      } else if y == i {
        MutatedSharesNothing(w, i, x, events, bump);
      } else {
        assert ShareNothing(w.instances[x], w.instances[y]);
      }
    }
    hide ShareNothing, Mutated;
  }

  lemma MutateKeepsInv(l: Limits, w: World, i: nat, events: seq<Event>, bump: bool)
    requires WorldInv(l, w) && Enabled(w, Mutate(i, events, bump))
    ensures WorldInv(l, Next(l, w, Mutate(i, events, bump)))
  {
    MutateKeepsInstances(w, i, events, bump);
    if i !in w.landed {
      MutatedIsNew(w, i, events, bump);
    }
    hide Inv, WholeCommits, OwnedOnce, InstancesOk, NoEventShared, NoneCommitted;
  }

  lemma StepKeepsInv(l: Limits, w: World, step: Step)
    requires ValidLimits(l) && WorldInv(l, w) && Enabled(w, step) && Careful(w, step)
    ensures WorldInv(l, Next(l, w, step))
  {
    match step
    case Create(i, a) => NewInstanceKeepsInv(l, w, i, a, View(0, None, []));
    case Load(i, a) => NewInstanceKeepsInv(l, w, i, a, View(w.db[a], Some(w.db[a]), []));
    case Mutate(i, events, bump) => MutateKeepsInv(l, w, i, events, bump);
    case Commit(enrolled, transaction) => CommitKeepsInv(l, w, enrolled, transaction);
    case MarkSent(ids) => MarkDispatchedKeeps(l, w.outbox, w.history, ids);
    case MarkUnsent(id, error) => MarkFailedKeeps(l, w.outbox, w.history, id, error);
  }

  lemma StartIsValid(l: Limits)
    ensures WorldInv(l, START)
  {
    EmptyIsValid(l);
  }

  /** Every world that careful steps reach keeps the invariant: among it, every chain consists of
      whole commits, and no event stands in two places of the chains. */
  lemma {:induction false} RunKeepsInv(l: Limits, steps: seq<Step>)
    requires ValidLimits(l) && IsCareful(l, steps)
    ensures WorldInv(l, Run(l, steps))
  {
    hide WorldInv;
    if |steps| == 0 {
      StartIsValid(l);
    } else {
      RunKeepsInv(l, steps[..|steps| - 1]);
      StepKeepsInv(l, Run(l, steps[..|steps| - 1]), steps[|steps| - 1]);
      hide Next, Enabled;
    }
  }

  // ---- what runs guarantee ----

  /** No event is ever committed twice: at any two places of the chains stand two events, whatever
      was committed, lost after landing, deleted, dispatched, dead-lettered or forgotten between. */
  lemma CommittedAtMostOnce(l: Limits, steps: seq<Step>, a: Address, i: int, k: int, b: Address, j: int, m: int,
                            id: string)
    requires ValidLimits(l) && IsCareful(l, steps)
    requires OwnerAt(Run(l, steps).history, a, i, k, id) && OwnerAt(Run(l, steps).history, b, j, m, id)
    ensures a == b && i == j && k == m
  {
    RunKeepsInv(l, steps);
  }

  /** Every careful commit attempt of every reachable world hands the outbox a harvest. */
  lemma CommitsAddHarvests(l: Limits, steps: seq<Step>, enrolled: seq<(nat, Disposition)>)
    requires ValidLimits(l) && IsCareful(l, steps + [Commit(enrolled, Succeeds)])
    requires IsRun(l, steps) && Enabled(Run(l, steps), Commit(enrolled, Succeeds))
    requires Harvest(ViewsOf(EnrolledOf(Run(l, steps), enrolled))).Ok?
    ensures IsHarvest(Run(l, steps).history, Harvest(ViewsOf(EnrolledOf(Run(l, steps), enrolled))).value)
  {
    assert (steps + [Commit(enrolled, Succeeds)])[..|steps|] == steps;
    RunKeepsInv(l, steps);
    EnrolledIsHarvest(l, Run(l, steps), enrolled);
  }

  ghost predicate Attempt(l: Limits, steps: seq<Step>, enrolled: seq<(nat, Disposition)>, cs: seq<Candidate>) {
    && ValidLimits(l) && IsCareful(l, steps)
    && Enabled(Run(l, steps), Commit(enrolled, Succeeds)) && Careful(Run(l, steps), Commit(enrolled, Succeeds))
    && Harvest(ViewsOf(EnrolledOf(Run(l, steps), enrolled))) == Ok(cs)
  }

  /** In every reachable world: once the pre-checks passed, a harvest is refused if and only if an
      eventful enrolled instance is below its source's retained head, and then for that stale head;
      it leaves a prefix if and only if an eventful one is harvested before the first such. */
  lemma HarvestRefusedIff(l: Limits, steps: seq<Step>, enrolled: seq<(nat, Disposition)>, cs: seq<Candidate>)
    requires Attempt(l, steps, enrolled, cs) && Precheck(l, Run(l, steps).outbox, cs).None?
    ensures var w, es := Run(l, steps), EnrolledOf(Run(l, steps), enrolled);
            var added := Add(l, w.outbox, cs);
            && (added.error == Some(StaleHead) <==> exists i :: 0 <= i < |es| && IsBelow(w.outbox.cursors, es[i]))
            && added.error in {None, Some(StaleHead)}
            && (added.error.Some? ==>
                  (added.state != w.outbox <==> exists j: nat :: BeforeFirstBelow(w.outbox.cursors, es, j)))
  {
    var w := Run(l, steps);
    var es := EnrolledOf(w, enrolled);
    RunKeepsInv(l, steps);
    EnrolledIsHarvest(l, w, enrolled);
    InvParts(l, w);
    hide WorldInv, Inv, WholeCommits, HarvestOf, Add, Precheck, Enabled, Harvest, IsCareful, Run;
    HarvestStaleIff(l, w.outbox, w.history, es, cs);
    if Add(l, w.outbox, cs).error.Some? {
      HarvestLeavesPrefixIff(l, w.outbox, w.history, es, cs);
    }
  }

  /** A harvest whose eventful instances are above their heads is stored as a whole or changes
      nothing, and is never refused for a stale head. */
  lemma HarvestNeverStale(l: Limits, steps: seq<Step>, enrolled: seq<(nat, Disposition)>, cs: seq<Candidate>)
    requires Attempt(l, steps, enrolled, cs)
    requires FirstAbove(Run(l, steps).outbox.cursors, EnrolledOf(Run(l, steps), enrolled), |enrolled|)
    ensures var added := Add(l, Run(l, steps).outbox, cs);
            added.error != Some(StaleHead) && (added.error.Some? ==> added.state == Run(l, steps).outbox)
  {
    var w := Run(l, steps);
    var es := EnrolledOf(w, enrolled);
    if Precheck(l, w.outbox, cs).None? {
      HarvestRefusedIff(l, steps, enrolled, cs);
      forall i | 0 <= i < |es| ensures !IsBelow(w.outbox.cursors, es[i]) {
        assert IsAbove(w.outbox.cursors, es[i]);
      }
    } else {
      PrecheckNotStale(l, w.outbox, cs);
    }
    hide Attempt, FirstAbove, IsAbove, IsBelow, AddLoop, Precheck;
  }

  lemma {:induction false} ReceiptErrors(s: State, cs: seq<Candidate>)
    ensures ReceiptPrecheck(s, cs) != Some(StaleHead)
  {
    if |cs| > 0 {
      ReceiptErrors(s, cs[..|cs| - 1]);
    }
  }

  lemma {:induction false} PositionErrors(cursors: Cursors, cs: seq<Candidate>)
    ensures Simulate(cursors, cs) != Err(StaleHead)
  {
    if |cs| > 0 {
      PositionErrors(cursors, cs[..|cs| - 1]);
    }
  }

  lemma PrecheckNotStale(l: Limits, s: State, cs: seq<Candidate>)
    ensures Precheck(l, s, cs) != Some(StaleHead)
  {
    ReceiptErrors(s, cs);
    PositionErrors(s.cursors, cs);
    hide ReceiptPrecheck, Simulate;
  }

  /** One commit more: linked to the head before it, holding every event in recording order, at
      a strictly higher version. */
  ghost predicate ExtendsByCommit(before: seq<Cursor>, after: seq<Cursor>, v: View) {
    && |after| == |before| + 1 && after[..|before|] == before
    && var c := after[|before|];
       && c.aggregateVersion == v.version && c.commitSize == |v.pendingEvents|
       && c.previous == (if |before| == 0 then None else Some(before[|before| - 1].aggregateVersion))
       && (|before| > 0 ==> before[|before| - 1].aggregateVersion < c.aggregateVersion)
       && (forall j: int :: j in c.owners <==> 0 <= j < |v.pendingEvents|)
       && (forall j: int :: 0 <= j < |v.pendingEvents| ==> c.owners[j] == v.pendingEvents[j].eventId)
  }

  lemma AddedExtends(s: State, h: History, e: Enrolled, s': State, h': History)
    requires HeadsAreLast(s.cursors, h) && ChainAfter(s, h, e, s', h') && |e.view.pendingEvents| > 0
    requires HeadOlder(s.cursors, e.address, e.view.version)
    ensures e.address in h' && ExtendsByCommit(ChainOf(h, e.address), h'[e.address], e.view)
  {
    OwnersAre(e.view.pendingEvents, |e.view.pendingEvents|);
    if e.address in h {
      assert Linked(h[e.address]);
    }
    hide Linked;
  }

  lemma AddedChain(s: State, h: History, es: seq<Enrolled>, k: nat, s': State, h': History)
    requires AllAdded(s, h, es, s', h') && k < |es|
    ensures ChainAfter(s, h, es[k], s', h')
  {
  }

  /** A commit that goes through, whether or not its call returns, extends the chain of each
      eventful aggregate by exactly one whole commit. */
  lemma CommitExtendsChain(l: Limits, steps: seq<Step>, enrolled: seq<(nat, Disposition)>, transaction: StorageCall,
                           k: nat)
    requires ValidLimits(l) && IsCareful(l, steps) && k < |enrolled|
    requires Enabled(Run(l, steps), Commit(enrolled, transaction))
    requires Careful(Run(l, steps), Commit(enrolled, transaction))
    requires DoCommit(l, Run(l, steps), enrolled, transaction) != Run(l, steps)
    requires |EnrolledOf(Run(l, steps), enrolled)[k].view.pendingEvents| > 0
    ensures var w, w' := Run(l, steps), DoCommit(l, Run(l, steps), enrolled, transaction);
            var e := EnrolledOf(w, enrolled)[k];
            e.address in w'.history && ExtendsByCommit(ChainOf(w.history, e.address), w'.history[e.address], e.view)
  {
    var w := Run(l, steps);
    RunKeepsInv(l, steps);
    WentThrough(l, w, enrolled, transaction);
    InvParts(l, w);
    var es := EnrolledOf(w, enrolled);
    var cs := Harvest(ViewsOf(es)).value;
    assert IsAbove(w.outbox.cursors, es[k]);
    hide *;
    var s', h' := Add(l, w.outbox, cs).state, AddHistory(l, w.outbox, w.history, cs);
    AddedChain(w.outbox, w.history, es, k, s', h');
    AboveIsOlder(w.outbox.cursors, es[k]);
    AddedExtends(w.outbox, w.history, es[k], s', h');
  }

  lemma AboveIsOlder(cursors: Cursors, e: Enrolled)
    requires IsAbove(cursors, e) && |e.view.pendingEvents| > 0
    ensures HeadOlder(cursors, e.address, e.view.version)
  {
  }

  // ---- runs without deletions ----

  ghost predicate AllSaved(step: Step) {
    step.Commit? ==> forall k :: 0 <= k < |step.enrolled| ==> step.enrolled[k].1.Saved?
  }

  ghost predicate NoDeletions(steps: seq<Step>) {
    forall n :: 0 <= n < |steps| ==> AllSaved(steps[n])
  }

  /** The row has moved past what the instance last saw: its writes fail. */
  predicate Superseded(db: map<Address, nat>, i: Instance) {
    && i.address in db
    && (i.view.persistedVersion.Some? ==> i.view.persistedVersion.value < db[i.address])
  }

  ghost predicate LandedSuperseded(db: map<Address, nat>, instances: map<nat, Instance>, landed: set<nat>) {
    forall i :: i in landed ==> i in instances && Superseded(db, instances[i])
  }

  /** The head of each chain is not past the row it came from. */
  ghost predicate HeadsBehindRows(cursors: Cursors, db: map<Address, nat>) {
    forall a :: a in cursors ==> a in db && cursors[a].aggregateVersion <= db[a]
  }

  ghost predicate RowsInv(w: World) {
    LandedSuperseded(w.db, w.instances, w.landed) && HeadsBehindRows(w.outbox.cursors, w.db)
  }

  ghost predicate RowsGrow(db: map<Address, nat>, db': map<Address, nat>) {
    forall a :: a in db ==> a in db' && db[a] <= db'[a]
  }

  lemma {:induction false} RowsWritten(db: map<Address, nat>, es: seq<Enrolled>)
    requires forall i, j :: 0 <= i < j < |es| ==> es[i].address != es[j].address
    requires forall i :: 0 <= i < |es| ==> es[i].disposition.Saved?
    ensures forall i :: 0 <= i < |es| ==>
              es[i].address in WriteRows(db, es) && WriteRows(db, es)[es[i].address] == es[i].view.version
    ensures forall a :: NotAmong(es, a) ==>
              (a in WriteRows(db, es) <==> a in db) && (a in db ==> WriteRows(db, es)[a] == db[a])
  {
    if |es| > 0 {
      var n := |es| - 1;
      RowsWritten(db, es[..n]);
      forall i | 0 <= i < n
        ensures es[i].address in WriteRows(db, es) && WriteRows(db, es)[es[i].address] == es[i].view.version {
        assert es[..n][i] == es[i];
      }
      forall a | NotAmong(es, a) ensures NotAmong(es[..n], a) && es[n].address != a {
        assert es[n] in es;
      }
    }
  }

  /** A saved row is not older than the one it replaces. */
  lemma RowsOnlyGrow(w: World, enrolled: seq<(nat, Disposition)>)
    requires InstancesOk(w.minted, w.instances) && Enabled(w, Commit(enrolled, Succeeds))
    requires AllSaved(Commit(enrolled, Succeeds))
    ensures RowsGrow(w.db, WriteRows(w.db, EnrolledOf(w, enrolled)))
  {
    var es := EnrolledOf(w, enrolled);
    RowsWritten(w.db, es);
    hide WriteRows;
    forall a | a in w.db ensures a in WriteRows(w.db, es) && w.db[a] <= WriteRows(w.db, es)[a] {
      if !NotAmong(es, a) {
        var e :| e in es && e.address == a;
        var i :| 0 <= i < |es| && es[i] == e;
        assert InstanceOk(w.minted, w.instances[enrolled[i].0]);
      }
    }
  }

  /** A written row leaves the eventful instance behind: its next write would not match the row. */
  lemma WrittenSupersedes(w: World, i: Instance, db': map<Address, nat>)
    requires WriteSucceeds(w, i, Saved) && Advanced(i.view) && |i.view.pendingEvents| > 0
    requires i.address in db' && db'[i.address] == i.view.version
    ensures Superseded(db', i)
  {
  }

  lemma EnrolledSuperseded(w: World, enrolled: seq<(nat, Disposition)>)
    requires Enabled(w, Commit(enrolled, Succeeds)) && AllSaved(Commit(enrolled, Succeeds))
    requires Harvest(ViewsOf(EnrolledOf(w, enrolled))).Ok?
    ensures LandedSuperseded(WriteRows(w.db, EnrolledOf(w, enrolled)), w.instances, EventfulOf(w, enrolled))
  {
    var es := EnrolledOf(w, enrolled);
    RowsWritten(w.db, es);
    HarvestIsExact(ViewsOf(es));
    hide WriteRows, Harvest, InPlace, Superseded, Advanced, WriteSucceeds, NotAmong;
    forall i | i in EventfulOf(w, enrolled)
      ensures i in w.instances && Superseded(WriteRows(w.db, es), w.instances[i]) {
      var k :| 0 <= k < |enrolled| && enrolled[k].0 == i;
      assert Harvestable(ViewsOf(es)[k]);
      assert es[k].address == w.instances[i].address;
      WrittenSupersedes(w, w.instances[i], WriteRows(w.db, es));
    }
  }

  lemma HeadsStayBehind(w: World, es: seq<Enrolled>, s': State, h': History, db': map<Address, nat>)
    requires HeadsBehindRows(w.outbox.cursors, w.db) && RowsGrow(w.db, db') && AllAdded(w.outbox, w.history, es, s', h')
    requires forall i :: 0 <= i < |es| ==> es[i].address in db' && db'[es[i].address] == es[i].view.version
    ensures HeadsBehindRows(s'.cursors, db')
  {
    forall a | a in s'.cursors ensures a in db' && s'.cursors[a].aggregateVersion <= db'[a] {
      if NotAmong(es, a) {
        assert SameChain(w.outbox, w.history, a, s', h');
      } else {
        var e :| e in es && e.address == a;
        var i :| 0 <= i < |es| && es[i] == e;
        assert ChainAfter(w.outbox, w.history, e, s', h');
      }
    }
  }

  lemma SupersededStays(db: map<Address, nat>, db': map<Address, nat>, instances: map<nat, Instance>, landed: set<nat>)
    requires RowsGrow(db, db') && LandedSuperseded(db, instances, landed)
    ensures LandedSuperseded(db', instances, landed)
  {
  }

  lemma AcknowledgedStaySuperseded(w: World, enrolled: seq<(nat, Disposition)>, db': map<Address, nat>)
    requires LandedSuperseded(db', w.instances, w.landed) && Careful(w, Commit(enrolled, Succeeds))
    requires forall k :: 0 <= k < |enrolled| ==> enrolled[k].0 in w.instances
    requires forall j, k :: 0 <= j < k < |enrolled| ==> enrolled[j].0 != enrolled[k].0
    ensures LandedSuperseded(db', AcknowledgeAll(w.instances, enrolled), w.landed)
  {
    AcknowledgedEach(w.instances, enrolled);
    hide AcknowledgeAll, Superseded;
    forall i | i in w.landed
      ensures i in AcknowledgeAll(w.instances, enrolled) && Superseded(db', AcknowledgeAll(w.instances, enrolled)[i]) {
      assert NotEnrolled(enrolled, i);
    }
  }

  lemma CommitKeepsRows(l: Limits, w: World, enrolled: seq<(nat, Disposition)>, transaction: StorageCall)
    requires ValidLimits(l) && WorldInv(l, w) && RowsInv(w) && Enabled(w, Commit(enrolled, transaction))
    requires Careful(w, Commit(enrolled, transaction)) && AllSaved(Commit(enrolled, transaction))
    ensures RowsInv(DoCommit(l, w, enrolled, transaction))
  {
    hide WorldInv, Harvest, Add, AddHistory, WriteRows, AcknowledgeAll, LandedSuperseded, HeadsBehindRows, RowsGrow;
    hide AllAdded;
    var es := EnrolledOf(w, enrolled);
    if DoCommit(l, w, enrolled, transaction) != w {
      WentThrough(l, w, enrolled, transaction);
      var cs, db' := Harvest(ViewsOf(es)).value, WriteRows(w.db, es);
      InstancesOfWorld(l, w);
      hide WriteSucceeds, FirstAbove, HarvestOf, InstancesOk, EventfulOf;
      RowsOnlyGrow(w, enrolled);
      RowsWritten(w.db, es);
      HeadsStayBehind(w, es, Add(l, w.outbox, cs).state, AddHistory(l, w.outbox, w.history, cs), db');
      SupersededStays(w.db, db', w.instances, w.landed);
      EnrolledSuperseded(w, enrolled);
      AcknowledgedStaySuperseded(w, enrolled, db');
      BothSuperseded(db', w.instances, w.landed, EventfulOf(w, enrolled));
    }
  }

  lemma InstancesOfWorld(l: Limits, w: World)
    requires WorldInv(l, w)
    ensures InstancesOk(w.minted, w.instances)
  {
  }

  lemma BothSuperseded(db: map<Address, nat>, instances: map<nat, Instance>, some: set<nat>, more: set<nat>)
    requires LandedSuperseded(db, instances, some) && LandedSuperseded(db, instances, more)
    ensures LandedSuperseded(db, instances, some + more)
  {
  }

  lemma {:induction false} SentKeepsCursors(l: Limits, s: State, ids: seq<string>)
    ensures MarkDispatched(l, s, ids).cursors == s.cursors
  {
    if |ids| > 0 {
      SentKeepsCursors(l, s, ids[..|ids| - 1]);
    }
  }

  lemma SavedIsCareful(w: World, step: Step)
    requires RowsInv(w) && Enabled(w, step) && AllSaved(step)
    ensures Careful(w, step)
  {
    if step.Commit? {
      forall k | 0 <= k < |step.enrolled| ensures step.enrolled[k].0 !in w.landed {
        assert WriteSucceeds(w, w.instances[step.enrolled[k].0], Saved);
      }
    }
  }

  lemma StepKeepsRows(l: Limits, w: World, step: Step)
    requires ValidLimits(l) && WorldInv(l, w) && RowsInv(w) && Enabled(w, step) && AllSaved(step)
    ensures Careful(w, step) && RowsInv(Next(l, w, step))
  {
    SavedIsCareful(w, step);
    hide WorldInv, HeadsBehindRows, DoCommit, Careful;
    match step
    case Create(i, a) =>
    case Load(i, a) =>
    case Mutate(i, events, bump) =>
    case Commit(enrolled, transaction) => CommitKeepsRows(l, w, enrolled, transaction);
    case MarkSent(ids) => SentKeepsCursors(l, w.outbox, ids);
    case MarkUnsent(id, error) => assert MarkFailed(l, w.outbox, id, error).cursors == w.outbox.cursors;
  }

  /** Without deletions every run is careful, because an instance whose commit landed unseen finds
      its row moved on, and no head is past its row. */
  lemma {:induction false} NoDeletionIsCareful(l: Limits, steps: seq<Step>)
    requires ValidLimits(l) && IsRun(l, steps) && NoDeletions(steps)
    ensures IsCareful(l, steps) && RowsInv(Run(l, steps))
  {
    if |steps| > 0 {
      var init := steps[..|steps| - 1];
      assert forall n :: 0 <= n < |init| ==> init[n] == steps[n];
      NoDeletionIsCareful(l, init);
      RunKeepsInv(l, init);
      hide WorldInv, RowsInv, Next, Enabled;
      StepKeepsRows(l, Run(l, init), steps[|steps| - 1]);
    }
  }

  /** Without deletions every commit attempt is above its heads: it is never refused for a stale
      head, and stored as a whole or not at all. */
  lemma NoDeletionNeverStale(l: Limits, steps: seq<Step>, enrolled: seq<(nat, Disposition)>, cs: seq<Candidate>)
    requires ValidLimits(l) && IsRun(l, steps) && NoDeletions(steps)
    requires Enabled(Run(l, steps), Commit(enrolled, Succeeds)) && AllSaved(Commit(enrolled, Succeeds))
    requires Harvest(ViewsOf(EnrolledOf(Run(l, steps), enrolled))) == Ok(cs)
    ensures var added := Add(l, Run(l, steps).outbox, cs);
            added.error != Some(StaleHead) && (added.error.Some? ==> added.state == Run(l, steps).outbox)
  {
    var w := Run(l, steps);
    NoDeletionIsCareful(l, steps);
    RunKeepsInv(l, steps);
    StepKeepsRows(l, w, Commit(enrolled, Succeeds));
    SavedAreAbove(w, enrolled);
    hide WorldInv, Enabled, Harvest, Add, FirstAbove;
    HarvestNeverStale(l, steps, enrolled, cs);
  }

  lemma SavedAreAbove(w: World, enrolled: seq<(nat, Disposition)>)
    requires RowsInv(w) && Enabled(w, Commit(enrolled, Succeeds)) && Harvest(ViewsOf(EnrolledOf(w, enrolled))).Ok?
    ensures FirstAbove(w.outbox.cursors, EnrolledOf(w, enrolled), |enrolled|)
  {
    var es := EnrolledOf(w, enrolled);
    HarvestIsExact(ViewsOf(es));
    hide Harvest, InPlace;
    forall k | 0 <= k < |es| ensures IsAbove(w.outbox.cursors, es[k]) {
      assert Harvestable(ViewsOf(es)[k]);
      assert WriteSucceeds(w, w.instances[enrolled[k].0], enrolled[k].1);
    }
  }
}
