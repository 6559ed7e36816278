/** What the outbox remembers of acknowledged records, and what re-adding a stored event does. */
module OutboxReceipts {
  import opened Common
  import opened OrderedMaps
  import opened Outboxes
  import opened OutboxChain
  import opened OutboxProperties

  // ---- the receipt ledger ----

  function Newest(order: seq<string>, max: nat): seq<string> {
    if |order| > max then order[|order| - max..] else order
  }

  lemma {:induction false} EvictKeepsNewest(max: nat, d: OrderedMap<string, Receipt>)
    ensures Evict(max, d).order == Newest(d.order, max)
    decreases |d.order|
  {
    if |d.order| > max {
      var rest := OrderedMap(d.order[1..], d.entries - {d.order[0]});
      assert Evict(max, d) == Evict(max, rest);
      EvictKeepsNewest(max, rest);
      NewestOfRest(d.order, max);
      hide Evict, Newest;
    }
  }

  lemma NewestOfRest(order: seq<string>, max: nat)
    requires |order| > max
    ensures Newest(order[1..], max) == Newest(order, max)
  {
    assert order[1..][|order| - 1 - max..] == order[|order| - max..];
  }

  /** A remembered receipt becomes the newest; beyond the limit the oldest are forgotten, and no
      receipt that is kept changes. */
  lemma RememberKeepsNewest(max: nat, d: OrderedMap<string, Receipt>, id: string, r: Receipt)
    requires d.Valid() && 0 < max
    ensures var after := RememberDispatched(max, d, id, r);
            && after.Valid() && after.order == Newest(Without(d.order, id) + [id], max)
            && after.Has(id) && after.entries[id] == r
            && forall k :: after.Has(k) && k != id ==> d.Has(k) && after.entries[k] == d.entries[k]
  {
    DeleteValid(d, id);
    SetValid(d.Delete(id), id, r);
    var full := d.Delete(id).Set(id, r);
    WithoutMembers(d.order, id);
    assert full.order == Without(d.order, id) + [id];
    EvictKeepsNewest(max, full);
    EvictKeepsOrder(max, full);
    var after := RememberDispatched(max, d, id, r);
    assert after.order[|after.order| - 1] == id;
    assert id in after.order;
    hide Evict, Without;
  }

  // ---- acknowledgement ----

  ghost predicate SameExcept<V(!new)>(before: map<string, V>, after: map<string, V>, id: string) {
    forall k :: (k in after <==> k in before && k != id) && (k in after ==> after[k] == before[k])
  }

  function StoredRecord(s: State, id: string): Option<Record> {
    if id in s.pending.entries then Some(s.pending.entries[id])
    else if id in s.dead.entries then Some(s.dead.entries[id])
    else None
  }

  /** Acknowledging one id removes its record, pending or dead, makes its receipt the newest, and
      touches no other record and no head; an unknown id changes nothing. */
  ghost predicate AckedExactly(l: Limits, s: State, after: State, id: string) {
    && SameExcept(s.pending.entries, after.pending.entries, id)
    && SameExcept(s.dead.entries, after.dead.entries, id)
    && after.pending.order == Without(s.pending.order, id) && after.cursors == s.cursors
    && match StoredRecord(s, id)
       case None => after.dispatched == s.dispatched
       case Some(r) => Remembered(l.maxRetained, s.dispatched, after.dispatched, id, r)
  }

  ghost predicate Remembered(max: nat, before: OrderedMap<string, Receipt>, after: OrderedMap<string, Receipt>,
                             id: string, r: Record) {
    && after.Has(id) && after.entries[id] == Receipt(r.source, Unlinked(r.position))
    && after.order == Newest(Without(before.order, id) + [id], max)
    && forall k :: after.Has(k) && k != id ==> before.Has(k) && after.entries[k] == before.entries[k]
  }

  lemma AckedOne(l: Limits, s: State, id: string)
    requires ValidLimits(l) && StorageInv(l, s)
    ensures AckedExactly(l, s, MarkOneDispatched(l, s, id), id)
  {
    hide RememberDispatched, Without, Remembered;
    assert s.dispatched.Valid() by { LedgerIsValid(l, s); }
    hide StorageInv;
    var r := StoredRecord(s, id);
    if r.Some? {
      RememberRecord(l.maxRetained, s.dispatched, id, r.value);
    }
  }

  lemma RememberRecord(max: nat, d: OrderedMap<string, Receipt>, id: string, r: Record)
    requires d.Valid() && 0 < max
    ensures Remembered(max, d, RememberDispatched(max, d, id, Receipt(r.source, Unlinked(r.position))), id, r)
  {
    hide RememberDispatched, Without, Newest;
    RememberKeepsNewest(max, d, id, Receipt(r.source, Unlinked(r.position)));
  }

  ghost predicate AmongNewest(order: seq<string>, id: string, n: nat) {
    exists i :: 0 <= i < |order| && |order| - n <= i && order[i] == id
  }

  lemma {:induction false} WithoutConcat(a: seq<string>, b: seq<string>, k: string)
    ensures Without(a + b, k) == Without(a, k) + Without(b, k)
  {
    if |a| > 0 {
      WithoutConcat(a[1..], b, k);
      assert (a + b)[1..] == a[1..] + b;
    } else {
      assert a + b == b;
    }
  }

  lemma {:induction false} WithoutIsShorter(s: seq<string>, k: string)
    ensures |Without(s, k)| <= |s|
  {
    if |s| > 0 {
      WithoutIsShorter(s[1..], k);
    }
  }

  /** One more acknowledgement moves a receipt at most one place towards the oldest. */
  lemma AgesByOne(order: seq<string>, id: string, n: nat, other: string, max: nat)
    requires AmongNewest(order, id, n) && n < max && other != id
    ensures AmongNewest(Newest(Without(order, other) + [other], max), id, n + 1)
  {
    var i :| 0 <= i < |order| && |order| - n <= i && order[i] == id;
    var older, newer := order[..i], order[i..];
    assert order == older + newer && newer[0] == id;
    WithoutConcat(older, newer, other);
    WithoutIsShorter(newer, other);
    WithoutMembers(newer, other);
    hide Without, AmongNewest, Newest;
    var a, b := Without(older, other), Without(newer, other);
    assert Without(order, other) == a + b;
    MemberIsAmongNewest(a, b, id, n, other, max);
  }

  lemma MemberIsAmongNewest(a: seq<string>, b: seq<string>, id: string, n: nat, other: string, max: nat)
    requires id in b && |b| <= n < max
    ensures AmongNewest(Newest(a + b + [other], max), id, n + 1)
  {
    var j :| 0 <= j < |b| && b[j] == id;
    var full := a + b + [other];
    assert full[|a| + j] == id;
    var kept := Newest(full, max);
    assert kept[|a| + j - (|full| - |kept|)] == id;
  }

  lemma {:induction false} AcksKeepStorage(l: Limits, s: State, ids: seq<string>)
    requires ValidLimits(l) && StorageInv(l, s) && WithinLimits(l, s)
    ensures StorageInv(l, MarkDispatched(l, s, ids)) && WithinLimits(l, MarkDispatched(l, s, ids))
  {
    hide StorageInv, WithinLimits, MarkOneDispatched;
    if |ids| > 0 {
      AcksKeepStorage(l, s, ids[..|ids| - 1]);
      MarkOneDispatchedStorage(l, MarkDispatched(l, s, ids[..|ids| - 1]), ids[|ids| - 1]);
    }
  }

  /** The record of an id is where it was, unless the id is acknowledged; then it is nowhere. */
  ghost predicate AckedAt(s: State, after: State, id: string, acked: bool) {
    && (id in after.pending.entries <==> id in s.pending.entries && !acked)
    && (id in after.pending.entries ==> after.pending.entries[id] == s.pending.entries[id])
    && (id in after.dead.entries <==> id in s.dead.entries && !acked)
    && (id in after.dead.entries ==> after.dead.entries[id] == s.dead.entries[id])
    && after.cursors == s.cursors
  }

  lemma AckedOnceMore(l: Limits, s: State, mid: State, after: State, id: string, last: string, acked: bool)
    requires AckedAt(s, mid, id, acked) && AckedExactly(l, mid, after, last)
    ensures AckedAt(s, after, id, acked || id == last)
  {
  }

  /** Acknowledging ids removes exactly their records, wherever they are. */
  lemma {:induction false} AckedStays(l: Limits, s: State, ids: seq<string>, id: string)
    requires ValidLimits(l) && StorageInv(l, s) && WithinLimits(l, s)
    ensures AckedAt(s, MarkDispatched(l, s, ids), id, id in ids)
  {
    if |ids| > 0 {
      var init, last := ids[..|ids| - 1], ids[|ids| - 1];
      var mid, after := MarkDispatched(l, s, init), MarkDispatched(l, s, ids);
      assert after == MarkOneDispatched(l, mid, last);
      InInitOrLast(ids, id);
      hide StorageInv, WithinLimits, MarkOneDispatched, MarkDispatched, AckedAt, AckedExactly;
      AckedStays(l, s, init, id);
      AcksKeepStorage(l, s, init);
      AckedOne(l, mid, last);
      AckedOnceMore(l, s, mid, after, id, last, id in init);
    }
  }

  lemma InInitOrLast(ids: seq<string>, id: string)
    requires |ids| > 0
    ensures id in ids <==> id in ids[..|ids| - 1] || id == ids[|ids| - 1]
  {
    assert ids == ids[..|ids| - 1] + [ids[|ids| - 1]];
  }

  /** An acknowledged record is remembered with its receipt for as long as fewer than `maxRetained`
      acknowledgements follow it. */
  lemma {:induction false} AckedIsRemembered(l: Limits, s: State, ids: seq<string>, i: nat)
    requires ValidLimits(l) && StorageInv(l, s) && WithinLimits(l, s)
    requires i < |ids| && |ids| - i <= l.maxRetained
    requires StoredRecord(s, ids[i]).Some? && ids[i] !in ids[..i]
    ensures IsRemembered(MarkDispatched(l, s, ids).dispatched, ids[i], StoredRecord(s, ids[i]).value, |ids| - i)
    decreases |ids|
  {
    hide StorageInv, WithinLimits, MarkDispatched, IsRemembered, StoredRecord;
    var n := |ids| - 1;
    if i == n {
      AckedLast(l, s, ids);
    } else {
      assert ids[..n][..i] == ids[..i];
      AckedIsRemembered(l, s, ids[..n], i);
      AckedOnceMoreIsRemembered(l, s, ids, i, StoredRecord(s, ids[i]).value);
    }
  }

  lemma AckStep(l: Limits, s: State, ids: seq<string>)
    requires ValidLimits(l) && StorageInv(l, s) && WithinLimits(l, s) && |ids| > 0
    ensures AckedExactly(l, MarkDispatched(l, s, ids[..|ids| - 1]), MarkDispatched(l, s, ids), ids[|ids| - 1])
  {
    var init, last := ids[..|ids| - 1], ids[|ids| - 1];
    var mid := MarkDispatched(l, s, init);
    assert MarkDispatched(l, s, ids) == MarkOneDispatched(l, mid, last);
    hide StorageInv, WithinLimits, MarkDispatched, MarkOneDispatched, AckedExactly;
    AcksKeepStorage(l, s, init);
    AckedOne(l, mid, last);
  }

  lemma AckedLast(l: Limits, s: State, ids: seq<string>)
    requires ValidLimits(l) && StorageInv(l, s) && WithinLimits(l, s) && |ids| > 0
    requires StoredRecord(s, ids[|ids| - 1]).Some? && ids[|ids| - 1] !in ids[..|ids| - 1]
    ensures IsRemembered(MarkDispatched(l, s, ids).dispatched, ids[|ids| - 1],
                         StoredRecord(s, ids[|ids| - 1]).value, 1)
  {
    hide StorageInv, WithinLimits, MarkDispatched, AckedExactly, IsRemembered, AckedAt, StoredRecord;
    var init, last := ids[..|ids| - 1], ids[|ids| - 1];
    var mid, after := MarkDispatched(l, s, init), MarkDispatched(l, s, ids);
    AckStep(l, s, ids);
    AckedStays(l, s, init, last);
    StillStored(s, mid, last);
    LastIsRemembered(l, mid, after, last);
  }

  lemma AckedOnceMoreIsRemembered(l: Limits, s: State, ids: seq<string>, i: nat, r: Record)
    requires ValidLimits(l) && StorageInv(l, s) && WithinLimits(l, s)
    requires i < |ids| - 1 && |ids| - i <= l.maxRetained
    requires IsRemembered(MarkDispatched(l, s, ids[..|ids| - 1]).dispatched, ids[i], r, |ids| - 1 - i)
    ensures IsRemembered(MarkDispatched(l, s, ids).dispatched, ids[i], r, |ids| - i)
  {
    hide StorageInv, WithinLimits, MarkDispatched, AckedExactly, IsRemembered, StoredRecord;
    var mid, after := MarkDispatched(l, s, ids[..|ids| - 1]), MarkDispatched(l, s, ids);
    AckStep(l, s, ids);
    AckedBefore(l, s, ids, i);
    RememberedOnceMore(l, mid, after, ids[i], r, |ids| - 1 - i, ids[|ids| - 1]);
  }

  lemma AckedBefore(l: Limits, s: State, ids: seq<string>, i: nat)
    requires ValidLimits(l) && StorageInv(l, s) && WithinLimits(l, s) && i < |ids| - 1
    ensures StoredRecord(MarkDispatched(l, s, ids[..|ids| - 1]), ids[i]).None?
    ensures MarkDispatched(l, s, ids).dispatched.Valid()
  {
    hide StorageInv, WithinLimits, MarkDispatched, AckedAt, StoredRecord;
    var init := ids[..|ids| - 1];
    assert init[i] == ids[i];
    AckedStays(l, s, init, ids[i]);
    NoLongerStored(s, MarkDispatched(l, s, init), ids[i]);
    AcksKeepStorage(l, s, ids);
    LedgerIsValid(l, MarkDispatched(l, s, ids));
  }

  /** The receipt of this record is among the `n` newest. */
  ghost predicate IsRemembered(d: OrderedMap<string, Receipt>, id: string, r: Record, n: nat) {
    AmongNewest(d.order, id, n) && d.Has(id) && d.entries[id] == Receipt(r.source, Unlinked(r.position))
  }

  lemma LedgerIsValid(l: Limits, s: State)
    requires StorageInv(l, s)
    ensures s.dispatched.Valid()
  {
  }

  lemma StillStored(s: State, mid: State, id: string)
    requires AckedAt(s, mid, id, false)
    ensures StoredRecord(mid, id) == StoredRecord(s, id)
  {
  }

  lemma NoLongerStored(s: State, mid: State, id: string)
    requires AckedAt(s, mid, id, true)
    ensures StoredRecord(mid, id).None?
  {
  }

  lemma LastIsRemembered(l: Limits, mid: State, after: State, id: string)
    requires AckedExactly(l, mid, after, id) && StoredRecord(mid, id).Some? && 0 < l.maxRetained
    ensures IsRemembered(after.dispatched, id, StoredRecord(mid, id).value, 1)
  {
    NewestIsLast(Without(mid.dispatched.order, id), id, l.maxRetained);
  }

  lemma RememberedOnceMore(l: Limits, mid: State, after: State, id: string, r: Record, n: nat, last: string)
    requires IsRemembered(mid.dispatched, id, r, n) && n < l.maxRetained && after.dispatched.Valid()
    requires StoredRecord(mid, id).None? && AckedExactly(l, mid, after, last)
    ensures IsRemembered(after.dispatched, id, r, n + 1)
  {
    if StoredRecord(mid, last).Some? {
      AgesByOne(mid.dispatched.order, id, n, last, l.maxRetained);
    }
  }

  lemma NewestIsLast(older: seq<string>, id: string, max: nat)
    requires 0 < max
    ensures AmongNewest(Newest(older + [id], max), id, 1)
  {
    var kept := Newest(older + [id], max);
    assert kept[|kept| - 1] == id;
  }

  // ---- adding a stored event again ----

  lemma {:induction false} LoopKeepsRetained(l: Limits, s: State, cs: seq<Candidate>)
    requires ValidLimits(l) && StorageInv(l, s)
    ensures StorageInv(l, AddLoop(l, s, cs).state)
    ensures AddLoop(l, s, cs).state.dispatched.entries == s.dispatched.entries
  {
    hide StorageInv, AddOne;
    if |cs| > 0 {
      LoopKeepsRetained(l, s, cs[..|cs| - 1]);
      var before := AddLoop(l, s, cs[..|cs| - 1]);
      if before.error.None? && AddOne(l, before.state, cs[|cs| - 1]).Ok? {
        AddOneKeepsStorage(l, before.state, cs[|cs| - 1]);
      }
    }
  }

  /** An acknowledged event whose receipt is retained is never queued again, whatever is added. */
  lemma RetainedIsNeverQueued(l: Limits, s: State, cs: seq<Candidate>, id: string)
    requires ValidLimits(l) && StorageInv(l, s) && id in s.dispatched.entries
    ensures var after := Add(l, s, cs).state;
            && id !in after.pending.entries && id !in after.dead.entries
            && id in after.dispatched.entries && after.dispatched.entries[id] == s.dispatched.entries[id]
  {
    LoopKeepsRetained(l, s, cs);
    hide AddLoop, Precheck;
  }

  /** What an accepted event that the outbox already knows changes, by where it is. */
  ghost predicate AddedAgain(s: State, after: State, c: Candidate) {
    var id := c.event.eventId;
    if id in s.dispatched.entries then
      // Acknowledged: nothing but the age of its receipt.
      after.pending == s.pending && after.dead == s.dead && after.cursors == s.cursors
      && after.dispatched.entries == s.dispatched.entries
    else if id in s.dead.entries then
      // Dead: back at the end of the queue with fresh attempts, as it was stored.
      var r := s.dead.entries[id];
      after.pending.order == s.pending.order + [id]
      && after.pending.entries == s.pending.entries[id := Record(r.dispatchId, r.event, r.source, r.position, 0, None)]
      && after.dead.entries == s.dead.entries - {id}
      && after.cursors == s.cursors && after.dispatched == s.dispatched
    else if id in s.pending.entries then
      // Pending: in its place, with its attempts, at the position now claimed.
      var was := s.pending.entries[id];
      after.pending.order == s.pending.order && SameExcept(s.pending.entries, after.pending.entries - {id}, id)
      && id in after.pending.entries && after.dead == s.dead && after.dispatched == s.dispatched
      && var now := after.pending.entries[id];
         now.attempts == was.attempts && now.lastError == was.lastError && now.event == c.event
         && now.source == was.source && Unlinked(now.position) == c.position
         && now.position.previous == was.position.previous
    else
      // New: at the end of the queue, untried.
      after.pending.order == s.pending.order + [id] && SameExcept(s.pending.entries, after.pending.entries - {id}, id)
      && id in after.pending.entries && after.dead == s.dead && after.dispatched == s.dispatched
      && var now := after.pending.entries[id];
         now.dispatchId == id && now.event == c.event && now.source == c.source && Unlinked(now.position) == c.position
         && now.attempts == 0 && now.lastError.None?
  }

  /** Adding one event: what changes, by where the outbox knows it from. */
  lemma AddOneEvent(l: Limits, s: State, c: Candidate)
    requires ValidLimits(l) && StorageInv(l, s) && Add(l, s, [c]).error.None?
    ensures AddedAgain(s, Add(l, s, [c]).state, c)
  {
    AddLoopOne(l, s, c);
    StepAddsAgain(l, s, c);
    hide AddedAgain, AddOne, AddLoop, Precheck;
  }

  lemma AddLoopOne(l: Limits, s: State, c: Candidate)
    ensures AddLoop(l, s, [c])
         == (if AddOne(l, s, c).Ok? then AddOutcome(AddOne(l, s, c).value, None)
             else AddOutcome(s, Some(AddOne(l, s, c).error)))
  {
    assert [c][..0] == [];
    assert AddLoop(l, s, [c][..0]) == AddOutcome(s, None);
    hide AddOne;
  }

  lemma StepAddsAgain(l: Limits, s: State, c: Candidate)
    requires ValidLimits(l) && StorageInv(l, s) && AddOne(l, s, c).Ok?
    ensures AddedAgain(s, AddOne(l, s, c).value, c)
  {
    var id := c.event.eventId;
    if s.dispatched.Has(id) {
      RefreshEvictsNothing(l.maxRetained, s.dispatched, id);
    }
    hide NextCursors, HeadConflict, RememberDispatched, NextPrevious;
  }
}
