/** What a harvest appends to the queue of pending records: one record per event, in harvest
    order, which is commit order within each source. */
module HarvestedQueues {
  import opened Common
  import opened OrderedMaps
  import opened Outboxes
  import opened OutboxChain
  import opened OutboxProperties
  import opened PipelineTheorems
  import opened CommitScopes
  import opened WithCommits
  import opened HarvestedBatches

  function IdsOfBatch(cs: seq<Candidate>): (ids: seq<string>)
    ensures |ids| == |cs| && forall i :: 0 <= i < |ids| ==> ids[i] == cs[i].event.eventId
  {
    seq(|cs|, i requires 0 <= i < |cs| => cs[i].event.eventId)
  }

  /** The batch names distinct events that the outbox does not know. */
  ghost predicate AllNew(s: State, cs: seq<Candidate>) {
    && (forall i :: 0 <= i < |cs| ==> !IsKnown(s, cs[i].event.eventId))
    && (forall i, j :: 0 <= i < j < |cs| ==> cs[i].event.eventId != cs[j].event.eventId)
  }

  /** The record that an accepted fresh candidate became. */
  predicate IsRecordOf(r: Record, c: Candidate) {
    r.event == c.event && r.source == c.source && Unlinked(r.position) == c.position && r.attempts == 0
  }

  ghost predicate Appended(s: State, cs: seq<Candidate>, now: State) {
    && now.dead == s.dead && now.dispatched == s.dispatched
    && now.pending.order == s.pending.order + IdsOfBatch(cs)
    && (forall id :: now.pending.Has(id) <==>
        s.pending.Has(id) || exists i :: 0 <= i < |cs| && cs[i].event.eventId == id)
    && (forall id :: s.pending.Has(id) ==> now.pending.entries[id] == s.pending.entries[id])
    && (forall i :: 0 <= i < |cs| ==>
          now.pending.Has(cs[i].event.eventId) && IsRecordOf(now.pending.entries[cs[i].event.eventId], cs[i]))
  }

  lemma AppendOne(l: Limits, s: State, cs: seq<Candidate>, now: State)
    requires |cs| > 0 && AllNew(s, cs) && Appended(s, cs[..|cs| - 1], now)
    requires AddOne(l, now, cs[|cs| - 1]).Ok?
    ensures Appended(s, cs, AddOne(l, now, cs[|cs| - 1]).value)
  {
    var init, c := cs[..|cs| - 1], cs[|cs| - 1];
    assert !IsKnown(now, c.event.eventId);
    AddOneOnFresh(l, now, c);
    hide AddOne;
    assert IsRecordOf(NextRecord(now, c), c);
    hide NextCursors, NextRecord, IsRecordOf;
    var next := StoreFresh(now, c);
    assert IdsOfBatch(cs) == IdsOfBatch(init) + [c.event.eventId];
    forall i | 0 <= i < |cs| ensures IsRecordOf(next.pending.entries[cs[i].event.eventId], cs[i]) {
      if i < |init| {
        assert init[i] == cs[i];
        assert IsRecordOf(now.pending.entries[init[i].event.eventId], init[i]);
      }
    }
    forall id
      ensures next.pending.Has(id) <==> s.pending.Has(id) || exists i :: 0 <= i < |cs| && cs[i].event.eventId == id {
      if i :| 0 <= i < |init| && init[i].event.eventId == id {
        assert cs[i].event.eventId == id;
      }
      if i :| 0 <= i < |cs| && cs[i].event.eventId == id && i < |init| {
        assert init[i].event.eventId == id;
      }
    }
  }

  /** An accepted batch of new events appends its records to the queue in order. */
  lemma {:induction false} LoopAppends(l: Limits, s: State, cs: seq<Candidate>)
    requires AllNew(s, cs) && AddLoop(l, s, cs).error.None?
    ensures Appended(s, cs, AddLoop(l, s, cs).state)
  {
    if |cs| == 0 {
      assert s.pending.order + IdsOfBatch(cs) == s.pending.order;
    } else {
      var init := cs[..|cs| - 1];
      assert forall i :: 0 <= i < |init| ==> init[i] == cs[i];
      assert AllNew(s, init);
      LoopAppends(l, s, init);
      hide AllNew, Appended, AddOne;
      AppendOne(l, s, cs, AddLoop(l, s, init).state);
    }
  }

  // ---- where in the harvest ----

  /** Candidate x is event k of aggregate i. */
  ghost predicate IsPlaceOf(vs: seq<View>, cs: seq<Candidate>, x: nat, i: nat, k: nat) {
    && x < |cs| && i < |vs| && k < |vs[i].pendingEvents| && x == Offset(vs, i) + k
    && Addressed(vs[i].pendingEvents[k]) && cs[x] == Positioned(vs[i], k)
  }

  lemma {:induction false} PlaceOf(vs: seq<View>, n: nat, x: nat) returns (i: nat, k: nat)
    requires n <= |vs| && x < Offset(vs, n)
    ensures i < n && k < |vs[i].pendingEvents| && x == Offset(vs, i) + k
  {
    if x >= Offset(vs, n - 1) {
      i, k := n - 1, x - Offset(vs, n - 1);
    } else {
      i, k := PlaceOf(vs, n - 1, x);
    }
  }

  lemma FindPlace(vs: seq<View>, x: nat) returns (i: nat, k: nat)
    requires Harvest(vs).Ok? && x < |Harvest(vs).value|
    ensures IsPlaceOf(vs, Harvest(vs).value, x, i, k)
  {
    HarvestIsExact(vs);
    i, k := PlaceOf(vs, |vs|, x);
    assert InPlace(vs, Harvest(vs).value, i, k);
    hide Harvest;
  }

  /** Places are in lexicographic order. */
  lemma PlacesAscend(vs: seq<View>, cs: seq<Candidate>, x: nat, i: nat, k: nat, y: nat, j: nat, m: nat)
    requires IsPlaceOf(vs, cs, x, i, k) && IsPlaceOf(vs, cs, y, j, m) && x < y
    ensures i < j || (i == j && k < m)
  {
    if j < i {
      OffsetGrows(vs, j + 1, i);
    }
  }

  /** Of two harvested events of one source, the later one comes later in the commit. */
  ghost predicate Ascending(cs: seq<Candidate>) {
    forall x, y :: 0 <= x < y < |cs| && cs[x].source == cs[y].source ==>
      && cs[x].position.aggregateVersion == cs[y].position.aggregateVersion
      && cs[x].position.commitSequence < cs[y].position.commitSequence
  }

  lemma HarvestPlaces(h: History, es: seq<Enrolled>, x: nat, y: nat)
    requires Harvest(ViewsOf(es)).Ok? && Separate(es) && forall i :: 0 <= i < |es| ==> CarriesNew(h, es[i])
    requires x < y < |Harvest(ViewsOf(es)).value|
    ensures var cs := Harvest(ViewsOf(es)).value;
            && cs[x].event.eventId != cs[y].event.eventId
            && (cs[x].source == cs[y].source ==>
                  && cs[x].position.aggregateVersion == cs[y].position.aggregateVersion
                  && cs[x].position.commitSequence < cs[y].position.commitSequence)
  {
    var vs := ViewsOf(es);
    var cs := Harvest(vs).value;
    var i, k := FindPlace(vs, x);
    var j, m := FindPlace(vs, y);
    hide Harvest, Offset;
    PlacesAscend(vs, cs, x, i, k, y, j, m);
    assert CarriesNew(h, es[i]) && CarriesNew(h, es[j]);
    assert SourceOf(vs[i].pendingEvents[k]) == es[i].address && SourceOf(vs[j].pendingEvents[m]) == es[j].address;
  }

  lemma HarvestIsNew(s: State, h: History, es: seq<Enrolled>)
    requires ChainInv(s, h) && Harvest(ViewsOf(es)).Ok?
    requires Separate(es) && forall i :: 0 <= i < |es| ==> CarriesNew(h, es[i])
    ensures AllNew(s, Harvest(ViewsOf(es)).value) && Ascending(Harvest(ViewsOf(es)).value)
  {
    var cs := Harvest(ViewsOf(es)).value;
    hide ChainInv, Harvest;
    forall x | 0 <= x < |cs| ensures !IsKnown(s, cs[x].event.eventId) {
      var i, k := FindPlace(ViewsOf(es), x);
      assert CarriesNew(h, es[i]);
      NewIsUnknown(s, h, es[i].view.pendingEvents);
    }
    forall x, y | 0 <= x < y < |cs|
      ensures cs[x].event.eventId != cs[y].event.eventId
      ensures cs[x].source == cs[y].source ==>
                && cs[x].position.aggregateVersion == cs[y].position.aggregateVersion
                && cs[x].position.commitSequence < cs[y].position.commitSequence {
      HarvestPlaces(h, es, x, y);
    }
  }

  /** A harvested candidate is an event of an enrolled aggregate at that aggregate's version. */
  lemma HarvestedAt(es: seq<Enrolled>, h: History, x: nat) returns (i: nat, k: nat)
    requires Harvest(ViewsOf(es)).Ok? && x < |Harvest(ViewsOf(es)).value|
    requires forall i :: 0 <= i < |es| ==> CarriesNew(h, es[i])
    ensures i < |es| && k < |es[i].view.pendingEvents|
    ensures var c := Harvest(ViewsOf(es)).value[x];
            && c.event == es[i].view.pendingEvents[k] && Addressed(c.event) && c.source == es[i].address
            && c.source == SourceOf(c.event)
            && c.position == CandidatePosition(es[i].view.version, k, |es[i].view.pendingEvents|)
  {
    i, k := FindPlace(ViewsOf(es), x);
    assert CarriesNew(h, es[i]);
    hide Harvest, Offset;
  }
}
