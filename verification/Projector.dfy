/** The projector itself: four validation passes over local maps and sets, then apply and save
    in one transaction. The transaction scope is atomic: a throw restores everything. */
module Projectors {
  import opened Common
  import opened OrderedMaps
  import opened Projections
  import opened ProjectionProperties
  import opened ProjectionVerdicts
  import opened CheckpointStores
  import opened PipelineTheorems

  datatype BatchResult = BatchResult(applied: nat, skipped: nat)

  datatype PositionKey = PositionKey(address: Address, version: int, sequence: int)

  function KeyOf(i: Item): PositionKey {
    PositionKey(i.address, i.position.aggregateVersion, i.position.commitSequence)
  }

  /** The checkpoints read at batch start, one entry per address in the batch. */
  type Loaded = map<Address, Option<Checkpoint>>

  ghost predicate Loads(stored: Loaded, c: Checkpoints, items: seq<Item>) {
    forall i :: 0 <= i < |items| ==>
      items[i].address in stored && stored[items[i].address] == Lookup(c, items[i].address)
  }

  predicate IsCovered(stored: Option<Checkpoint>, i: Item) {
    stored.Some? && !IsPositionAfter(i.position, stored.value.position)
  }

  /** Loaded entries are the stored ones, and valid. */
  ghost predicate LoadedFrom(stored: Loaded, c: Checkpoints) {
    forall a :: a in stored ==> stored[a] == Lookup(c, a) && (stored[a].Some? ==> IsValidCheckpoint(stored[a].value))
  }

  lemma LoadNext(stored: Loaded, c: Checkpoints, items: seq<Item>, n: nat)
    requires n < |items| && LoadedFrom(stored, c) && items[n].address in stored
    requires Readable(c, items[..n]) && Loads(stored, c, items[..n])
    ensures Readable(c, items[..n + 1]) && Loads(stored, c, items[..n + 1])
  {
    assert items[..n + 1] == items[..n] + [items[n]];
    assert IsReadable(c, items[n]);
  }

  lemma LoadAdds(stored: Loaded, c: Checkpoints, items: seq<Item>, a: Address)
    requires LoadedFrom(stored, c) && Loads(stored, c, items) && a !in stored
    requires a in c ==> IsValidCheckpoint(c[a])
    ensures LoadedFrom(stored[a := Lookup(c, a)], c) && Loads(stored[a := Lookup(c, a)], c, items)
  {
  }

  /** Reads every addressed checkpoint once and refuses an invalid one. */
  method LoadCheckpoints(store: InMemoryProjectionCheckpointStore, name: string, items: seq<Item>)
    returns (stored: Loaded, error: Option<ProjectError>)
    ensures error.None? <==> Readable(store.Of(name), items)
    ensures error.Some? ==> error.value == Unprojectable
    ensures error.None? ==> Loads(stored, store.Of(name), items)
  {
    ghost var c := store.Of(name);
    stored, error := map[], None;
    for n := 0 to |items|
      invariant error.None? && Readable(c, items[..n]) && Loads(stored, c, items[..n]) && LoadedFrom(stored, c)
    {
      var a := items[n].address;
      if a !in stored {
        var checkpoint := store.Load(name, a);
        if checkpoint.Some? && !IsValidCheckpoint(checkpoint.value) {
          assert !IsReadable(c, items[n]);
          error := Some(Unprojectable);
          return;
        }
        LoadAdds(stored, c, items[..n], a);
        stored := stored[a := checkpoint];
      }
      LoadNext(stored, c, items, n);
    }
    assert items[..|items|] == items;
  }

  method CheckWatermarkReceipts(ghost c: Checkpoints, stored: Loaded, items: seq<Item>)
    returns (error: Option<ProjectError>)
    requires Loads(stored, c, items)
    ensures error.None? <==> MatchesWatermarks(c, items)
    ensures WatermarksDecide(c, items, error)
    ensures error.None? || error.value.IdentityViolation? || error.value.ReceiptViolation?
  {
    for i := 0 to |items|
      invariant MatchesWatermarks(c, items[..i])
      invariant forall k :: 0 <= k < i ==> !ContradictsStored(c, items[k])
    {
      assert items[..i + 1] == items[..i] + [items[i]];
      WatermarkVerdict(c, items[i]);
      var item := items[i];
      var at := stored[item.address];
      if at.Some? && IsSameOrderedPosition(item.position, at.value.position) {
        if item.event.eventId != at.value.lastAppliedEventId {
          return Some(IdentityViolation);
        }
        if !IsSamePositionReceipt(item.position, at.value.position) {
          return Some(ReceiptViolation);
        }
      }
    }
    assert items[..|items|] == items;
    return None;
  }

  // ---- the batch receipt pass ----

  type Receipts = map<PositionKey, Item>

  /** The recorded receipts stand for exactly the first n items, which agree so far. */
  ghost predicate Records(items: seq<Item>, n: nat, recorded: Receipts)
    requires n <= |items|
  {
    && (forall k :: 0 <= k < n ==> IsRecorded(recorded, items[k]))
    && (forall key :: key in recorded ==> KeyOf(recorded[key]) == key && recorded[key] in items[..n])
  }

  predicate IsRecorded(recorded: Receipts, i: Item) {
    KeyOf(i) in recorded && SameReceipt(i, recorded[KeyOf(i)])
  }

  lemma RecordedMeansConsistent(items: seq<Item>, recorded: Receipts)
    requires Records(items, |items|, recorded)
    ensures ConsistentReceipts(items)
  {
    forall i, j | 0 <= i < j < |items| && SameKey(items[i], items[j]) ensures SameReceipt(items[i], items[j]) {
      assert IsRecorded(recorded, items[i]) && IsRecorded(recorded, items[j]);
      assert KeyOf(items[i]) == KeyOf(items[j]);
    }
  }

  lemma RecordNext(items: seq<Item>, n: nat, recorded: Receipts)
    requires n < |items| && Records(items, n, recorded)
    requires KeyOf(items[n]) in recorded ==> SameReceipt(recorded[KeyOf(items[n])], items[n])
    ensures Records(items, n + 1, recorded[KeyOf(items[n]) := items[n]])
  {
    var next := recorded[KeyOf(items[n]) := items[n]];
    assert items[..n + 1] == items[..n] + [items[n]];
    forall k | 0 <= k < n + 1 ensures IsRecorded(next, items[k]) {
      if k < n {
        assert IsRecorded(recorded, items[k]);
      }
    }
  }

  lemma EarlierIsRecorded(items: seq<Item>, n: nat, recorded: Receipts, k: nat)
    requires n <= |items| && Records(items, n, recorded) && k < n
    ensures KeyOf(items[k]) in recorded
    ensures items[k].event.eventId == recorded[KeyOf(items[k])].event.eventId
    ensures items[k].position == recorded[KeyOf(items[k])].position
  {
    assert IsRecorded(recorded, items[k]);
  }

  /** The recorded item that differs from item n makes n the first item in conflict. */
  lemma ConflictFound(items: seq<Item>, n: nat, recorded: Receipts, first: nat)
    requires n < |items| && Records(items, n, recorded)
    requires first < n && KeyOf(items[n]) in recorded && items[first] == recorded[KeyOf(items[n])]
    requires Conflict(items[first], items[n])
    ensures forall k: nat, m: nat :: FirstConflict(items, k, m) ==>
              m == n && items[k].event.eventId == items[first].event.eventId
  {
    forall k: nat, m: nat | FirstConflict(items, k, m)
      ensures m == n && items[k].event.eventId == items[first].event.eventId {
      EarlierIsRecorded(items, n, recorded, if k < n then k else first);
      if m < n {
        EarlierIsRecorded(items, n, recorded, m);
      }
    }
  }

  lemma ConflictDecides(items: seq<Item>, n: nat, recorded: Receipts)
    requires n < |items| && Records(items, n, recorded) && KeyOf(items[n]) in recorded
    requires Conflict(recorded[KeyOf(items[n])], items[n])
    ensures !ConsistentReceipts(items)
    ensures ConflictsDecide(items, Some(if items[n].event.eventId != recorded[KeyOf(items[n])].event.eventId
                                        then IdentityViolation else ReceiptViolation))
  {
    var k :| 0 <= k < n && items[k] == recorded[KeyOf(items[n])];
    ConflictFound(items, n, recorded, k);
    ConsistentIffNoConflict(items);
    hide Records, FirstConflict, Conflict;
  }

  lemma NoConflictDecides(items: seq<Item>, recorded: Receipts)
    requires Records(items, |items|, recorded)
    ensures ConsistentReceipts(items) && ConflictsDecide(items, None)
  {
    RecordedMeansConsistent(items, recorded);
    ConsistentIffNoConflict(items);
    hide Records, Conflict;
  }

  method CheckBatchReceipts(items: seq<Item>) returns (error: Option<ProjectError>)
    ensures error.None? <==> ConsistentReceipts(items)
    ensures ConflictsDecide(items, error)
    ensures error.None? || error.value.IdentityViolation? || error.value.ReceiptViolation?
  {
    hide ConsistentReceipts, ConflictsDecide;
    var recorded: Receipts := map[];
    for n := 0 to |items|
      invariant Records(items, n, recorded)
    {
      var item := items[n];
      var key := KeyOf(item);
      if key in recorded {
        var first := recorded[key];
        assert KeyOf(first) == key;
        hide Records;
        ConflictVerdict(first, item);
        if Conflict(first, item) {
          ConflictDecides(items, n, recorded);
        }
        if first.event.eventId != item.event.eventId {
          return Some(IdentityViolation);
        }
        if !IsSamePositionReceipt(item.position, first.position) {
          return Some(ReceiptViolation);
        }
      }
      RecordNext(items, n, recorded);
      recorded := recorded[key := item];
    }
    NoConflictDecides(items, recorded);
    return None;
  }

  // ---- the order pass ----

  ghost predicate Seen(c: Checkpoints, items: seq<Item>, n: nat, seen: set<PositionKey>)
    requires n <= |items|
  {
    && (forall k :: 0 <= k < n && !Skips(c, items[k]) ==> KeyOf(items[k]) in seen)
    && (forall key :: key in seen ==> exists k :: 0 <= k < n && KeyOf(items[k]) == key)
  }

  predicate NotPast(newest: map<Address, Position>, i: Item) {
    i.address in newest && !IsPositionAfter(i.position, newest[i.address])
  }

  /** The greatest unseen position per address among the first n items. */
  ghost predicate Newest(c: Checkpoints, items: seq<Item>, n: nat, newest: map<Address, Position>)
    requires n <= |items|
  {
    && (forall k :: 0 <= k < n && !Skips(c, items[k]) ==> NotPast(newest, items[k]))
    && (forall a :: a in newest ==> exists k :: 0 <= k < n && IsAt(c, items[k], a, newest[a]))
  }

  predicate IsAt(c: Checkpoints, i: Item, a: Address, p: Position) {
    !Skips(c, i) && i.address == a && i.position == p
  }

  /** Item j breaks the order: first of its key, yet behind an earlier unseen position. */
  ghost predicate Inverted(c: Checkpoints, items: seq<Item>, i: nat, j: nat) {
    && i < j < |items|
    && FirstOfItsKey(items, j)
    && !Skips(c, items[i]) && !Skips(c, items[j])
    && items[i].address == items[j].address
    && IsPositionAfter(items[i].position, items[j].position)
  }

  ghost predicate Ordered(c: Checkpoints, items: seq<Item>, n: nat) {
    forall i: nat, j: nat :: j < n ==> !Inverted(c, items, i, j)
  }

  lemma InOrderIsNoInversion(c: Checkpoints, items: seq<Item>)
    ensures InOrder(c, items) <==> Ordered(c, items, |items|)
  {
    if InOrder(c, items) {
      forall i: nat, j: nat ensures !Inverted(c, items, i, j) {
      }
    }
    if Ordered(c, items, |items|) {
      forall i, j | 0 <= i < j < |items| && FirstOfItsKey(items, j) && !Skips(c, items[i]) && !Skips(c, items[j])
                    && items[i].address == items[j].address
        ensures !IsPositionAfter(items[i].position, items[j].position)
      {
        assert !Inverted(c, items, i, j);
      }
    }
  }

  lemma SeenNext(c: Checkpoints, items: seq<Item>, n: nat, seen: set<PositionKey>)
    requires n < |items| && Seen(c, items, n, seen)
    ensures !Skips(c, items[n]) ==> Seen(c, items, n + 1, seen + {KeyOf(items[n])})
    ensures Skips(c, items[n]) || KeyOf(items[n]) in seen ==> Seen(c, items, n + 1, seen)
    ensures !Skips(c, items[n]) && KeyOf(items[n]) !in seen ==> FirstOfItsKey(items, n)
    ensures KeyOf(items[n]) in seen ==> !FirstOfItsKey(items, n)
  {
    if KeyOf(items[n]) in seen {
      var k :| 0 <= k < n && KeyOf(items[k]) == KeyOf(items[n]);
      assert SameKey(items[k], items[n]);
    }
    forall key | key in seen ensures exists k :: 0 <= k < n + 1 && KeyOf(items[k]) == key {
      var k :| 0 <= k < n && KeyOf(items[k]) == key;
    }
  }

  /** Records a position that is the first or the greatest of its address. */
  function Raise(newest: map<Address, Position>, i: Item): map<Address, Position> {
    if i.address !in newest || IsPositionAfter(i.position, newest[i.address]) then newest[i.address := i.position]
    else newest
  }

  lemma NewestNext(c: Checkpoints, items: seq<Item>, n: nat, newest: map<Address, Position>)
    requires n < |items| && Newest(c, items, n, newest)
    ensures !Skips(c, items[n]) ==> Newest(c, items, n + 1, Raise(newest, items[n]))
    ensures Skips(c, items[n]) ==> Newest(c, items, n + 1, newest)
  {
    var next := if Skips(c, items[n]) then newest else Raise(newest, items[n]);
    forall k | 0 <= k < n + 1 && !Skips(c, items[k]) ensures NotPast(next, items[k]) {
      if k < n {
        assert NotPast(newest, items[k]);
      }
    }
    forall b | b in next ensures exists k :: 0 <= k < n + 1 && IsAt(c, items[k], b, next[b]) {
      if b in newest && next[b] == newest[b] {
        var k :| 0 <= k < n && IsAt(c, items[k], b, newest[b]);
      } else {
        assert IsAt(c, items[n], b, next[b]);
      }
    }
  }

  lemma NoInversionAt(c: Checkpoints, items: seq<Item>, n: nat, newest: map<Address, Position>, i: nat)
    requires n < |items| && Newest(c, items, n, newest)
    requires items[n].address in newest ==> !IsPositionAfter(newest[items[n].address], items[n].position)
    ensures !Inverted(c, items, i, n)
  {
  }

  /** What the order pass knows after n items. */
  ghost predicate OrderState(c: Checkpoints, items: seq<Item>, n: nat, newest: map<Address, Position>,
                             seen: set<PositionKey>)
    requires n <= |items|
  {
    && Ordered(c, items, n)
    && Seen(c, items, n, seen)
    && Newest(c, items, n, newest)
  }

  predicate IsPassed(newest: map<Address, Position>, i: Item) {
    i.address in newest && IsPositionAfter(newest[i.address], i.position)
  }

  /** A repeat of an unseen position raises nothing. */
  lemma RepeatIsNotPast(c: Checkpoints, items: seq<Item>, n: nat, newest: map<Address, Position>,
                        seen: set<PositionKey>)
    requires n < |items| && Seen(c, items, n, seen) && Newest(c, items, n, newest)
    requires !Skips(c, items[n]) && KeyOf(items[n]) in seen
    ensures NotPast(newest, items[n])
  {
    var k :| 0 <= k < n && KeyOf(items[k]) == KeyOf(items[n]);
    assert !Skips(c, items[k]);
    assert NotPast(newest, items[k]);
  }

  lemma OrderSkips(c: Checkpoints, items: seq<Item>, n: nat, newest: map<Address, Position>, seen: set<PositionKey>)
    requires n < |items| && OrderState(c, items, n, newest, seen)
    requires Skips(c, items[n]) || KeyOf(items[n]) in seen
    ensures OrderState(c, items, n + 1, newest, seen)
  {
    assert Seen(c, items, n + 1, seen) by { SeenNext(c, items, n, seen); }
    assert Newest(c, items, n + 1, newest) by {
      if !Skips(c, items[n]) { RepeatIsNotPast(c, items, n, newest, seen); }
      NewestNext(c, items, n, newest);
    }
    assert Ordered(c, items, n + 1) by {
      assert Skips(c, items[n]) || !FirstOfItsKey(items, n) by { SeenNext(c, items, n, seen); }
      hide Seen, Newest, FirstOfItsKey, Skips;
      forall i: nat ensures !Inverted(c, items, i, n) {
      }
    }
    hide Seen, Newest, Ordered, Skips;
  }

  lemma OrderRaises(c: Checkpoints, items: seq<Item>, n: nat, newest: map<Address, Position>, seen: set<PositionKey>)
    requires n < |items| && OrderState(c, items, n, newest, seen)
    requires !Skips(c, items[n]) && KeyOf(items[n]) !in seen && !IsPassed(newest, items[n])
    ensures OrderState(c, items, n + 1, Raise(newest, items[n]), seen + {KeyOf(items[n])})
  {
    assert Seen(c, items, n + 1, seen + {KeyOf(items[n])}) by { SeenNext(c, items, n, seen); }
    assert Newest(c, items, n + 1, Raise(newest, items[n])) by { NewestNext(c, items, n, newest); }
    assert Ordered(c, items, n + 1) by {
      hide Seen, Newest, Raise;
      forall i: nat ensures !Inverted(c, items, i, n) {
        NoInversionAt(c, items, n, newest, i);
      }
    }
    hide Seen, Newest, Ordered, Skips, Raise;
  }

  lemma OrderBreaks(c: Checkpoints, items: seq<Item>, n: nat, newest: map<Address, Position>, seen: set<PositionKey>)
    requires n < |items| && OrderState(c, items, n, newest, seen)
    requires !Skips(c, items[n]) && KeyOf(items[n]) !in seen && IsPassed(newest, items[n])
    ensures !InOrder(c, items)
  {
    SeenNext(c, items, n, seen);
    var a := items[n].address;
    var k :| 0 <= k < n && IsAt(c, items[k], a, newest[a]);
    assert Inverted(c, items, k, n);
    InOrderIsNoInversion(c, items);
  }

  lemma OrderEnds(c: Checkpoints, items: seq<Item>, newest: map<Address, Position>, seen: set<PositionKey>)
    requires OrderState(c, items, |items|, newest, seen)
    ensures InOrder(c, items)
  {
    InOrderIsNoInversion(c, items);
  }

  lemma CoveredIsSkipped(stored: Loaded, c: Checkpoints, items: seq<Item>, n: nat)
    requires n < |items| && Loads(stored, c, items)
    ensures items[n].address in stored
    ensures IsCovered(stored[items[n].address], items[n]) <==> Skips(c, items[n])
  {
  }

  method CheckOrder(ghost c: Checkpoints, stored: Loaded, items: seq<Item>) returns (error: Option<ProjectError>)
    requires Loads(stored, c, items)
    ensures error.None? <==> InOrder(c, items)
    ensures error.None? || error == Some(OrderViolation)
  {
    var newestUnprocessed: map<Address, Position> := map[];
    var positionsSeenInBatch: set<PositionKey> := {};
    assert OrderState(c, items, 0, map[], {});
    hide OrderState, InOrder, Loads, Skips, IsCovered, Raise, IsPassed, KeyOf;
    for n := 0 to |items|
      invariant OrderState(c, items, n, newestUnprocessed, positionsSeenInBatch)
    {
      CoveredIsSkipped(stored, c, items, n);
      var item := items[n];
      var key := KeyOf(item);
      if IsCovered(stored[item.address], item) || key in positionsSeenInBatch {
        OrderSkips(c, items, n, newestUnprocessed, positionsSeenInBatch);
      } else {
        if IsPassed(newestUnprocessed, item) {
          OrderBreaks(c, items, n, newestUnprocessed, positionsSeenInBatch);
          return Some(OrderViolation);
        }
        OrderRaises(c, items, n, newestUnprocessed, positionsSeenInBatch);
        positionsSeenInBatch := positionsSeenInBatch + {key};
        newestUnprocessed := Raise(newestUnprocessed, item);
      }
    }
    OrderEnds(c, items, newestUnprocessed, positionsSeenInBatch);
    return None;
  }

  // ---- the contiguity pass ----

  lemma LoadsApply(stored: Loaded, c: Checkpoints, items: seq<Item>, i: Item)
    requires Loads(stored, c, items)
    ensures Loads(stored[i.address := Some(Checkpoint(i.position, i.event.eventId))], Apply(c, i), items)
  {
  }

  lemma PlanApply(c: Checkpoints, advanced: OrderedMap<Address, Checkpoint>, i: Item)
    requires advanced.Valid()
    ensures var next := advanced.Set(i.address, Checkpoint(i.position, i.event.eventId));
            next.Valid() && c + next.entries == Apply(c + advanced.entries, i)
  {
    SetValid(advanced, i.address, Checkpoint(i.position, i.event.eventId));
  }

  /** The simulated advance: the contiguity pass with its local watermarks. */
  method PlanBatch(ghost c: Checkpoints, stored: Loaded, items: seq<Item>)
    returns (gap: bool, advanced: OrderedMap<Address, Checkpoint>, toApply: seq<Item>, skipped: nat)
    requires Loads(stored, c, items)
    ensures gap <==> AdvanceAll(c, items).Gapped?
    ensures !gap ==> advanced.Valid() && AdvanceAll(c, items) == Advanced(c + advanced.entries, toApply, skipped)
  {
    gap, advanced, toApply, skipped := false, Empty(), [], 0;
    var watermarks := stored;
    assert c + advanced.entries == c;
    for n := 0 to |items|
      invariant !gap && advanced.Valid()
      invariant AdvanceAll(c, items[..n]) == Advanced(c + advanced.entries, toApply, skipped)
      invariant Loads(watermarks, c + advanced.entries, items)
    {
      AdvancePrefix(c, items, n);
      var item := items[n];
      var watermark := watermarks[item.address];
      if IsCovered(watermark, item) {
        skipped := skipped + 1;
      } else if !IsContiguous(item.position, if watermark.Some? then Some(watermark.value.position) else None) {
        gap := true;
        GapIsFinal(c, items, n + 1);
        return;
      } else {
        var checkpoint := Checkpoint(item.position, item.event.eventId);
        LoadsApply(watermarks, c + advanced.entries, items, item);
        PlanApply(c, advanced, item);
        watermarks := watermarks[item.address := Some(checkpoint)];
        advanced := advanced.Set(item.address, checkpoint);
        toApply := toApply + [item];
      }
    }
    assert items[..|items|] == items;
  }

  lemma GapIsFinal(c: Checkpoints, items: seq<Item>, n: nat)
    requires n <= |items| && AdvanceAll(c, items[..n]).Gapped?
    ensures AdvanceAll(c, items).Gapped?
  {
    if AdvanceAll(c, items).Advanced? {
      PrefixAdvances(c, items, n);
    }
  }

  /** The save loop can only fail on the store's limit: the receipts it would add must fit. */
  ghost predicate Fits(maxCheckpoints: Option<nat>, before: map<Key, Checkpoint>, added: map<Key, Checkpoint>) {
    || maxCheckpoints.None?
    || added.Keys <= before.Keys
    || |(before + added).Keys| <= maxCheckpoints.value
  }

  /** The receipts of one projection as store entries. */
  function Keyed(name: string, c: Checkpoints): (m: map<Key, Checkpoint>)
    ensures forall k :: k in m <==> k.projection == name && k.address in c
    ensures forall k :: k in m ==> m[k] == c[k.address]
  {
    map a | a in c :: Key(name, a) := c[a]
  }

  class Projector<M> {
    const name: string
    const store: InMemoryProjectionCheckpointStore
    const handler: (M, Event) -> M
    const emptyModel: M
    var readModel: M
    /** Every item whose handler ran in a committed batch, in order. */
    ghost var log: seq<Item>

    /** The read model is the fold of the handler over the applied log. */
    ghost predicate Valid()
      reads this, store
    {
      store.Valid() && readModel == ReadModel(handler, emptyModel, log)
    }

    constructor (name: string, store: InMemoryProjectionCheckpointStore, handler: (M, Event) -> M, emptyModel: M)
      requires store.Valid()
      ensures Valid() && log == []
      ensures this.name == name && this.store == store && this.emptyModel == emptyModel
    {
      this.name := name;
      this.store := store;
      this.handler := handler;
      this.emptyModel := emptyModel;
      this.readModel := emptyModel;
      this.log := [];
    }

    /** Validates the envelopes before any transaction. */
    method Validate(events: seq<Envelope>) returns (r: Result<seq<Item>, ProjectError>)
      ensures r == ToItems(events)
    {
      var items: seq<Item> := [];
      for n := 0 to |events|
        invariant ToItems(events[..n]) == Ok(items)
      {
        assert events[..n + 1][..n] == events[..n];
        var item := ToItem(events[n]);
        if item.Err? {
          ItemsStopAtError(events, n + 1);
          return Err(item.error);
        }
        items := items + [item.value];
      }
      assert events[..|events|] == events;
      return Ok(items);
    }

    /** The four checks over the loaded checkpoints, and the plan they allow. */
    method Plan(items: seq<Item>)
      returns (error: Option<ProjectError>, advanced: OrderedMap<Address, Checkpoint>, toApply: seq<Item>, skipped: nat)
      requires forall i :: 0 <= i < |items| ==> IsProjectable(items[i])
      ensures error.None? <==> Accepts(store.Of(name), items)
      ensures error.None? ==>
                && advanced.Valid()
                && AdvanceAll(store.Of(name), items) == Advanced(store.Of(name) + advanced.entries, toApply, skipped)
      ensures var c := store.Of(name);
              && (!Readable(c, items) ==> error == Some(Unprojectable))
              && (Readable(c, items) && MatchesWatermarks(c, items) && ConsistentReceipts(items)
                  && !InOrder(c, items) ==>
                    error == Some(OrderViolation))
              && (error == Some(Gap) <==>
                    && Readable(c, items) && MatchesWatermarks(c, items) && ConsistentReceipts(items)
                    && InOrder(c, items) && AdvanceAll(c, items).Gapped?)
      ensures Readable(store.Of(name), items) ==> ReceiptsDecide(store.Of(name), items, error)
    {
      ghost var c := store.Of(name);
      hide WatermarksDecide, ConflictsDecide, ReceiptsDecide, IsProjectable;
      hide Readable, MatchesWatermarks, ConsistentReceipts, InOrder, Loads, AdvanceAll;
      advanced, toApply, skipped := Empty(), [], 0;
      var stored: Loaded;
      stored, error := LoadCheckpoints(store, name, items);
      if error.Some? {
        return;
      }
      error := CheckWatermarkReceipts(c, stored, items);
      if error.Some? {
        WatermarksFirst(c, items, error);
        return;
      }
      error := CheckBatchReceipts(items);
      if error.Some? {
        ConflictsNext(c, items, error);
        return;
      }
      forall later ensures ReceiptsDecide(c, items, later) { NothingToDecide(c, items, later); }
      error := CheckOrder(c, stored, items);
      if error.Some? {
        return;
      }
      var gap: bool;
      gap, advanced, toApply, skipped := PlanBatch(c, stored, items);
      error := if gap then Some(Gap) else None;
    }

    /** Runs the handlers; `throwsAt` is the first one that throws, if any. */
    method ApplyAll(ghost past: seq<Item>, toApply: seq<Item>, throwsAt: Option<nat>) returns (threw: bool)
      requires readModel == ReadModel(handler, emptyModel, past)
      modifies this`readModel
      ensures threw <==> throwsAt.Some? && throwsAt.value < |toApply|
      ensures !threw ==> readModel == ReadModel(handler, emptyModel, past + toApply)
    {
      assert past + toApply[..0] == past;
      for n := 0 to |toApply|
        invariant throwsAt.Some? ==> n <= throwsAt.value
        invariant readModel == ReadModel(handler, emptyModel, past + toApply[..n])
      {
        if throwsAt == Some(n) {
          return true;
        }
        ghost var longer := past + toApply[..n + 1];
        assert longer[..|longer| - 1] == past + toApply[..n];
        readModel := handler(readModel, toApply[n].event);
      }
      assert toApply[..|toApply|] == toApply;
      return false;
    }

    /** Saves each advanced checkpoint once; stops at the store's limit. */
    method SaveAll(advanced: OrderedMap<Address, Checkpoint>) returns (saved: bool)
      requires store.Valid() && advanced.Valid()
      modifies store`checkpoints, store`checkpointCount
      ensures store.Valid()
      ensures saved <==> Fits(store.maxCheckpoints, old(store.checkpoints), Keyed(name, advanced.entries))
      ensures saved ==> store.checkpoints == old(store.checkpoints) + Keyed(name, advanced.entries)
    {
      ghost var before := store.checkpoints;
      FirstOfNone(before, name, advanced);
      hide Keyed, FirstOf, Fits;
      for n := 0 to |advanced.order|
        invariant store.Valid()
        invariant store.checkpoints == before + Keyed(name, FirstOf(advanced, n))
        invariant store.maxCheckpoints.Some? ==> Within(before, store.checkpoints, store.maxCheckpoints.value)
      {
        var a := advanced.order[n];
        KeyedNext(before, name, advanced, n);
        ghost var part := store.checkpoints;
        var done := store.Save(name, a, advanced.entries[a]);
        if !done {
          PartDoesNotFit(store.maxCheckpoints, before, name, advanced, n, part);
          return false;
        }
        SaveStaysWithin(before, part, Key(name, a), advanced.entries[a], store.maxCheckpoints);
      }
      FirstOfAll(advanced);
      AllFit(store.maxCheckpoints, before, Keyed(name, advanced.entries));
      return true;
    }

    /** The body of the transaction: handlers, then saves; a throw restores both. */
    method Commit(advanced: OrderedMap<Address, Checkpoint>, toApply: seq<Item>, throwsAt: Option<nat>)
      returns (error: Option<ProjectError>)
      requires Valid() && advanced.Valid()
      modifies this`readModel, this`log, store`checkpoints, store`checkpointCount
      ensures Valid()
      ensures error.Some? ==>
              readModel == old(readModel) && log == old(log) && store.checkpoints == old(store.checkpoints)
      ensures error.None? ==> log == old(log) + toApply
                              && store.checkpoints == old(store.checkpoints) + Keyed(name, advanced.entries)
      ensures error.None? <==> !(throwsAt.Some? && throwsAt.value < |toApply|)
                               && Fits(store.maxCheckpoints, old(store.checkpoints), Keyed(name, advanced.entries))
    {
      var model := readModel;
      var receipts, count := store.checkpoints, store.checkpointCount;
      hide ReadModel, Fits, Keyed;
      var threw := ApplyAll(log, toApply, throwsAt);
      if threw {
        readModel := model;
        return Some(HandlerThrew);
      }
      ghost var applied := log + toApply;
      assert readModel == ReadModel(handler, emptyModel, applied);
      var saved := SaveAll(advanced);
      if !saved {
        readModel := model;
        store.Restore(receipts, count);
        return Some(CapacityExceeded);
      }
      log := applied;
      return None;
    }

    /** One batch, one transaction: on any error nothing at all has changed. */
    method Project(events: seq<Envelope>, throwsAt: Option<nat>) returns (r: Result<BatchResult, ProjectError>)
      requires Valid()
      modifies this`readModel, this`log, store`checkpoints, store`checkpointCount
      ensures Valid()
      ensures r.Err? ==> readModel == old(readModel) && log == old(log) && store.checkpoints == old(store.checkpoints)
      ensures r.Ok? ==> ToItems(events).Ok? && Accepts(old(store.Of(name)), ToItems(events).value)
      ensures r.Ok? ==>
                && old(log) <= log
                && r.value.applied == |log| - |old(log)|
                && r.value.applied + r.value.skipped == |events|
                && AdvanceAll(old(store.Of(name)), ToItems(events).value)
                   == Advanced(store.Of(name), log[|old(log)|..], r.value.skipped)
      ensures r.Ok? ==> OthersUntouched(name, old(store.checkpoints), store.checkpoints)
      ensures (ToItems(events).Ok? && Accepts(old(store.Of(name)), ToItems(events).value)
               && throwsAt.None? && store.maxCheckpoints.None?) ==> r.Ok?
      ensures forall n: nat :: FirstBad(events, n) ==>
                r == Err(if IsMalformed(events[n]) then Unprojectable else ForeignEvent)
      ensures ToItems(events).Ok? && Readable(old(store.Of(name)), ToItems(events).value) ==>
                ReceiptsDecide(old(store.Of(name)), ToItems(events).value, if r.Err? then Some(r.error) else None)
    {
      hide Readable, ReceiptsDecide;
      var validated := Validate(events);
      assert forall n: nat :: FirstBad(events, n) ==>
          validated == Err(if IsMalformed(events[n]) then Unprojectable else ForeignEvent) by {
        EnvelopesVerdict(events);
      }
      hide FirstBad;
      if validated.Err? {
        return Err(validated.error);
      }
      var items := validated.value;
      ghost var c, before := store.Of(name), store.checkpoints;
      ItemsAreProjectable(events);
      var error, advanced, toApply, skipped := Plan(items);
      if error.Some? {
        return Err(error.value);
      }
      assert |toApply| + skipped == |items| by { EveryItemCounted(c, items); }
      hide Accepts, AdvanceAll, ReadModel, Keyed, Fits, OthersUntouched;
      ghost var past := log;
      error := Commit(advanced, toApply, throwsAt);
      if error.Some? {
        assert throwsAt.None? ==> !Fits(store.maxCheckpoints, before, Keyed(name, advanced.entries));
        NoLimitFits(before, Keyed(name, advanced.entries));
        AcceptedDecidesNothing(c, items, error);
        return Err(error.value);
      }
      SavedIsAdvanced(before, c, name, advanced.entries, store.Of(name), store.checkpoints);
      SavedIsOwn(before, name, advanced.entries);
      assert log[|past|..] == toApply;
      return Ok(BatchResult(|toApply|, skipped));
    }

    /** Clears this projection's checkpoints and its read model in one transaction. */
    method Reset()
      requires Valid()
      modifies this`readModel, this`log, store`checkpoints, store`checkpointCount
      ensures Valid()
      ensures store.Of(name) == map[] && log == [] && readModel == emptyModel
      ensures forall other :: other != name ==> store.Of(other) == old(store.Of(other))
    {
      readModel := emptyModel;
      log := [];
      store.Reset(name);
    }
  }

  lemma {:induction false} ItemsStopAtError(es: seq<Envelope>, n: nat)
    requires n <= |es| && ToItems(es[..n]).Err?
    ensures ToItems(es) == ToItems(es[..n])
    decreases |es| - n
  {
    if n == |es| {
      assert es[..n] == es;
    } else {
      assert es[..n + 1][..n] == es[..n];
      ItemsStopAtError(es, n + 1);
    }
  }

  lemma ItemsAreProjectable(es: seq<Envelope>)
    requires ToItems(es).Ok?
    ensures forall i :: 0 <= i < |es| ==> IsProjectable(ToItems(es).value[i])
  {
    forall i | 0 <= i < |es| ensures IsProjectable(ToItems(es).value[i]) {
      assert ToItem(es[i]) == Ok(ToItems(es).value[i]);
    }
  }

  function FirstOf(m: OrderedMap<Address, Checkpoint>, n: nat): map<Address, Checkpoint>
    requires n <= |m.order| && forall i :: 0 <= i < |m.order| ==> m.order[i] in m.entries
  {
    map a | a in m.order[..n] :: m.entries[a]
  }

  lemma FirstOfNone(before: map<Key, Checkpoint>, name: string, m: OrderedMap<Address, Checkpoint>)
    requires m.Valid()
    ensures before + Keyed(name, FirstOf(m, 0)) == before
  {
  }

  lemma KeyedSet(name: string, c: map<Address, Checkpoint>, a: Address, v: Checkpoint)
    ensures Keyed(name, c[a := v]) == Keyed(name, c)[Key(name, a) := v]
  {
    var left, right := Keyed(name, c[a := v]), Keyed(name, c)[Key(name, a) := v];
    forall k ensures k in left <==> k in right {
    }
    forall k | k in left ensures left[k] == right[k] {
    }
  }

  lemma KeyedNext(before: map<Key, Checkpoint>, name: string, m: OrderedMap<Address, Checkpoint>, n: nat)
    requires m.Valid() && n < |m.order|
    ensures var k := Key(name, m.order[n]);
            before + Keyed(name, FirstOf(m, n + 1)) == (before + Keyed(name, FirstOf(m, n)))[k := m.entries[m.order[n]]]
  {
    var a := m.order[n];
    var some := FirstOf(m, n);
    FirstOfNext(m, n);
    KeyedSet(name, some, a, m.entries[a]);
    MergeSet(before, Keyed(name, some), Key(name, a), m.entries[a]);
  }

  lemma FirstOfNext(m: OrderedMap<Address, Checkpoint>, n: nat)
    requires m.Valid() && n < |m.order|
    ensures FirstOf(m, n + 1) == FirstOf(m, n)[m.order[n] := m.entries[m.order[n]]]
  {
    assert m.order[..n + 1] == m.order[..n] + [m.order[n]];
  }

  lemma MergeSet<K, V>(x: map<K, V>, y: map<K, V>, k: K, v: V)
    ensures x + y[k := v] == (x + y)[k := v]
  {
  }

  lemma FirstOfAll(m: OrderedMap<Address, Checkpoint>)
    requires m.Valid()
    ensures FirstOf(m, |m.order|) == m.entries
  {
    assert m.order[..|m.order|] == m.order;
  }

  /** No new receipt so far, or the count still within the limit. */
  predicate Within(before: map<Key, Checkpoint>, now: map<Key, Checkpoint>, max: nat) {
    now.Keys == before.Keys || |now| <= max
  }

  lemma SaveStaysWithin(before: map<Key, Checkpoint>, part: map<Key, Checkpoint>, k: Key, v: Checkpoint,
                        max: Option<nat>)
    requires max.Some? ==> k in part || |part| < max.value
    requires max.Some? ==> Within(before, part, max.value)
    ensures max.Some? ==> Within(before, part[k := v], max.value)
  {
    assert |part[k := v]| == if k in part then |part| else |part| + 1 by {
      assert part[k := v].Keys == part.Keys + {k};
    }
    if k in part {
      assert part[k := v].Keys == part.Keys;
    }
  }

  lemma AllFit(max: Option<nat>, before: map<Key, Checkpoint>, added: map<Key, Checkpoint>)
    requires max.Some? ==> Within(before, before + added, max.value)
    ensures Fits(max, before, added)
  {
    assert (before + added).Keys == before.Keys + added.Keys;
    assert |before + added| == |(before + added).Keys|;
  }

  /** A refused save means the whole set of receipts could not fit. */
  lemma PartDoesNotFit(max: Option<nat>, before: map<Key, Checkpoint>, name: string,
                       m: OrderedMap<Address, Checkpoint>, n: nat,
                       part: map<Key, Checkpoint>)
    requires m.Valid() && n < |m.order| && part == before + Keyed(name, FirstOf(m, n))
    requires Key(name, m.order[n]) !in part && max.Some? && |part| >= max.value
    ensures !Fits(max, before, Keyed(name, m.entries))
  {
    var a := m.order[n];
    var some := FirstOf(m, n);
    assert some.Keys <= m.entries.Keys && a in m.entries;
    KeyedSubset(name, some, m.entries);
    MergeExceeds(max.value, before, Keyed(name, some), Keyed(name, m.entries), Key(name, a));
  }

  lemma KeyedSubset(name: string, some: map<Address, Checkpoint>, all: map<Address, Checkpoint>)
    requires some.Keys <= all.Keys
    ensures Keyed(name, some).Keys <= Keyed(name, all).Keys
  {
  }

  lemma MergeExceeds(max: nat, before: map<Key, Checkpoint>, some: map<Key, Checkpoint>, all: map<Key, Checkpoint>,
                     k: Key)
    requires some.Keys <= all.Keys && k in all && k !in before + some && |before + some| >= max
    ensures !Fits(Some(max), before, all)
  {
    assert (before + all).Keys == before.Keys + all.Keys;
    assert (before + some).Keys == before.Keys + some.Keys;
    SubsetCount((before + some).Keys, (before + all).Keys);
    assert |before + some| == |(before + some).Keys|;
  }

  ghost predicate OthersUntouched(name: string, before: map<Key, Checkpoint>, after: map<Key, Checkpoint>) {
    forall k: Key :: k.projection != name ==>
      && (k in after <==> k in before)
      && (k in after ==> after[k] == before[k])
  }

  lemma NoLimitFits(before: map<Key, Checkpoint>, added: map<Key, Checkpoint>)
    ensures Fits(None, before, added)
  {
  }

  lemma SavedIsOwn(before: map<Key, Checkpoint>, name: string, advanced: map<Address, Checkpoint>)
    ensures OthersUntouched(name, before, before + Keyed(name, advanced))
  {
  }

  lemma SavedIsAdvanced(before: map<Key, Checkpoint>, c: Checkpoints, name: string, advanced: map<Address, Checkpoint>,
                        c': Checkpoints, after: map<Key, Checkpoint>)
    requires after == before + Keyed(name, advanced)
    requires forall a :: (a in c <==> Key(name, a) in before) && (a in c ==> c[a] == before[Key(name, a)])
    requires forall a :: (a in c' <==> Key(name, a) in after) && (a in c' ==> c'[a] == after[Key(name, a)])
    ensures c' == c + advanced
  {
    forall a ensures a in c' <==> a in c + advanced {
      assert Key(name, a) in after <==> Key(name, a) in before || Key(name, a) in Keyed(name, advanced);
    }
    forall a | a in c' ensures c'[a] == (c + advanced)[a] {
      assert Key(name, a) in after;
    }
  }
}
