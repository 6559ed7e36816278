/** The batches `withCommit` hands to the outbox: harvests of separate aggregates. What `add` makes
    of one is decided by where the aggregates stand to the heads of their sources. */
module HarvestedBatches {
  import opened Common
  import opened Outboxes
  import opened OutboxChain
  import opened OutboxProperties
  import opened OutboxAtomicity
  import opened PipelineTheorems
  import opened CommitScopes
  import opened WithCommits

  // ---- adding one aggregate's harvest ----

  /** Owners of the first n sequences of a commit. */
  function OwnersUpTo(events: seq<Event>, n: nat): map<int, string>
    requires n <= |events|
  {
    if n == 0 then map[] else OwnersUpTo(events, n - 1)[n - 1 := events[n - 1].eventId]
  }

  lemma {:induction false} OwnersAre(events: seq<Event>, n: nat)
    requires n <= |events|
    ensures forall k: int :: k in OwnersUpTo(events, n) <==> 0 <= k < n
    ensures forall k: int :: 0 <= k < n ==> OwnersUpTo(events, n)[k] == events[k].eventId
  {
    if n > 0 {
      OwnersAre(events, n - 1);
    }
  }

  function CommitCursor(previous: Option<int>, v: View, n: nat): Cursor
    requires n <= |v.pendingEvents|
  {
    Cursor(v.version, previous, |v.pendingEvents|, OwnersUpTo(v.pendingEvents, n))
  }

  ghost predicate UnknownEvents(s: State, events: seq<Event>) {
    && (forall k :: 0 <= k < |events| ==> !IsKnown(s, events[k].eventId))
    && (forall j, k :: 0 <= j < k < |events| ==> events[j].eventId != events[k].eventId)
  }

  ghost predicate AllFrom(events: seq<Event>, a: Address) {
    forall k :: 0 <= k < |events| ==> Addressed(events[k]) && SourceOf(events[k]) == a
  }

  /** The source's head, if it has one, is older than the commit. */
  ghost predicate HeadOlder(cursors: Cursors, a: Address, version: nat) {
    a in cursors ==> cursors[a].aggregateVersion < version
  }

  ghost predicate KnownAfter(s: State, s': State, events: seq<Event>, n: nat)
    requires n <= |events|
  {
    forall x :: IsKnown(s', x) <==> IsKnown(s, x) || exists k :: 0 <= k < n && events[k].eventId == x
  }

  ghost predicate HeadKnown(cursors: Cursors, h: History, a: Address) {
    && (a in h <==> a in cursors)
    && (a in h ==> |h[a]| > 0 && h[a][|h[a]| - 1] == cursors[a])
  }

  /** The state and history once n events of the commit were added. */
  ghost predicate CommitAdded(s: State, h: History, v: View, a: Address, n: nat, s': State, h': History)
    requires n <= |v.pendingEvents|
  {
    var cursor := CommitCursor(HeadVersion(s.cursors, a), v, n);
    && s'.cursors == (if n == 0 then s.cursors else s.cursors[a := cursor])
    && h' == (if n == 0 then h else h[a := ChainOf(h, a) + [cursor]])
    && KnownAfter(s, s', v.pendingEvents, n)
  }

  /** The next event of the commit is accepted and becomes the owner of its sequence. */
  lemma NextEventAccepted(l: Limits, s: State, h: History, v: View, a: Address, n: nat, s0: State, h0: History)
    requires n < |v.pendingEvents| && AllFrom(v.pendingEvents, a) && UnknownEvents(s, v.pendingEvents)
    requires HeadOlder(s.cursors, a, v.version) && HeadKnown(s.cursors, h, a)
    requires CommitAdded(s, h, v, a, n, s0, h0)
    ensures AddOne(l, s0, Positioned(v, n)).Ok?
    ensures CommitAdded(s, h, v, a, n + 1, AddOne(l, s0, Positioned(v, n)).value, NextHistory(s0, h0, Positioned(v, n)))
  {
    var c := Positioned(v, n);
    var id := v.pendingEvents[n].eventId;
    OwnersAre(v.pendingEvents, n);
    assert !IsKnown(s0, id);
    AddOneOnFresh(l, s0, c);
    assert AcceptsFresh(s0, c);
    var s1 := StoreFresh(s0, c);
    CursorsAfterNext(s0, v, a, n, s, c);
    HistoryAfterNext(s0, h0, v, a, n, s, h, c);
    KnownAfterNext(s, s0, s1, v, n, c);
    hide UnknownEvents, KnownAfter, StoreFresh;
  }

  lemma CursorsAfterNext(s0: State, v: View, a: Address, n: nat, s: State, c: Candidate)
    requires n < |v.pendingEvents| && AllFrom(v.pendingEvents, a) && c == Positioned(v, n)
    requires HeadOlder(s.cursors, a, v.version) && !IsKnown(s0, c.event.eventId)
    requires s0.cursors == (if n == 0 then s.cursors else s.cursors[a := CommitCursor(HeadVersion(s.cursors, a), v, n)])
    ensures NextCursors(s0, c) == s.cursors[a := CommitCursor(HeadVersion(s.cursors, a), v, n + 1)]
  {
    OwnersAre(v.pendingEvents, n);
    var previous := HeadVersion(s.cursors, a);
    if n == 0 {
      assert OwnersUpTo(v.pendingEvents, 0) == map[];
      assert map[0 := c.event.eventId] == OwnersUpTo(v.pendingEvents, 1);
    }
  }

  lemma HistoryAfterNext(s0: State, h0: History, v: View, a: Address, n: nat, s: State, h: History, c: Candidate)
    requires n < |v.pendingEvents| && AllFrom(v.pendingEvents, a) && c == Positioned(v, n)
    requires HeadOlder(s.cursors, a, v.version) && HeadKnown(s.cursors, h, a) && !IsKnown(s0, c.event.eventId)
    requires h0 == (if n == 0 then h else h[a := ChainOf(h, a) + [CommitCursor(HeadVersion(s.cursors, a), v, n)]])
    ensures NextHistory(s0, h0, c) == h[a := ChainOf(h, a) + [CommitCursor(HeadVersion(s.cursors, a), v, n + 1)]]
  {
    OwnersAre(v.pendingEvents, n);
    var previous, chain := HeadVersion(s.cursors, a), ChainOf(h, a);
    if n == 0 {
      assert map[0 := c.event.eventId] == OwnersUpTo(v.pendingEvents, 1);
      assert [] + [FreshCursor(None, c.position, c.event.eventId)] == [FreshCursor(None, c.position, c.event.eventId)];
    } else {
      var grown := chain + [CommitCursor(previous, v, n)];
      assert ChainOf(h0, a) == grown && grown[|grown| - 1] == CommitCursor(previous, v, n);
      assert grown[|grown| - 1 := CommitCursor(previous, v, n + 1)] == chain + [CommitCursor(previous, v, n + 1)];
    }
  }

  lemma KnownAfterNext(s: State, s0: State, s1: State, v: View, n: nat, c: Candidate)
    requires n < |v.pendingEvents| && Addressed(v.pendingEvents[n]) && c == Positioned(v, n)
    requires KnownAfter(s, s0, v.pendingEvents, n) && s1 == StoreFresh(s0, c)
    ensures KnownAfter(s, s1, v.pendingEvents, n + 1)
  {
    var id := v.pendingEvents[n].eventId;
    forall x
      ensures IsKnown(s1, x) <==> IsKnown(s, x) || exists k :: 0 <= k < n + 1 && v.pendingEvents[k].eventId == x {
      assert IsKnown(s1, x) <==> IsKnown(s0, x) || x == id;
      if x == id {
        assert v.pendingEvents[n].eventId == x;
      }
    }
  }

  lemma NothingAdded(s: State, h: History, v: View, a: Address)
    ensures CommitAdded(s, h, v, a, 0, s, h)
  {
  }

  lemma FromIsAddressed(events: seq<Event>, a: Address, k: nat)
    requires AllFrom(events, a) && k < |events|
    ensures Addressed(events[k])
  {
  }

  lemma LoopOneMore(l: Limits, s: State, h: History, init: seq<Candidate>, c: Candidate)
    requires AddLoop(l, s, init).error.None? && AddOne(l, AddLoop(l, s, init).state, c).Ok?
    ensures AddLoop(l, s, init + [c]) == AddOutcome(AddOne(l, AddLoop(l, s, init).state, c).value, None)
    ensures LoopHistory(l, s, h, init + [c]) == NextHistory(AddLoop(l, s, init).state, LoopHistory(l, s, h, init), c)
  {
    assert (init + [c])[..|init|] == init;
    hide AddOne, NextHistory;
  }

  lemma HarvestOneMore(v: View, n: nat)
    requires 0 < n <= |v.pendingEvents| && HarvestEvents(v, n - 1).Ok? && Addressed(v.pendingEvents[n - 1])
    ensures HarvestEvents(v, n) == Ok(HarvestEvents(v, n - 1).value + [Positioned(v, n - 1)])
  {
  }

  lemma OneMoreEvent(l: Limits, s: State, h: History, v: View, a: Address, n: nat, init: seq<Candidate>)
    requires 0 < n <= |v.pendingEvents| && AllFrom(v.pendingEvents, a) && UnknownEvents(s, v.pendingEvents)
    requires HeadOlder(s.cursors, a, v.version) && HeadKnown(s.cursors, h, a)
    requires HarvestEvents(v, n - 1) == Ok(init) && AddLoop(l, s, init).error.None?
    requires CommitAdded(s, h, v, a, n - 1, AddLoop(l, s, init).state, LoopHistory(l, s, h, init))
    ensures Addressed(v.pendingEvents[n - 1]) && HarvestEvents(v, n) == Ok(init + [Positioned(v, n - 1)])
    ensures var cs := init + [Positioned(v, n - 1)];
            && AddLoop(l, s, cs).error.None?
            && CommitAdded(s, h, v, a, n, AddLoop(l, s, cs).state, LoopHistory(l, s, h, cs))
  {
    hide *;
    FromIsAddressed(v.pendingEvents, a, n - 1);
    HarvestOneMore(v, n);
    NextEventAccepted(l, s, h, v, a, n - 1, AddLoop(l, s, init).state, LoopHistory(l, s, h, init));
    LoopOneMore(l, s, h, init, Positioned(v, n - 1));
  }

  /** The first n events of one aggregate's commit are all accepted. */
  lemma {:induction false} CommitIsAdded(l: Limits, s: State, h: History, v: View, a: Address, n: nat)
    requires n <= |v.pendingEvents| && AllFrom(v.pendingEvents, a) && UnknownEvents(s, v.pendingEvents)
    requires HeadOlder(s.cursors, a, v.version) && HeadKnown(s.cursors, h, a)
    ensures HarvestEvents(v, n).Ok?
    ensures var cs := HarvestEvents(v, n).value;
            && AddLoop(l, s, cs).error.None?
            && CommitAdded(s, h, v, a, n, AddLoop(l, s, cs).state, LoopHistory(l, s, h, cs))
  {
    if n == 0 {
      NothingAdded(s, h, v, a);
      hide CommitAdded, AllFrom, UnknownEvents, HeadOlder, HeadKnown;
    } else {
      hide *;
      CommitIsAdded(l, s, h, v, a, n - 1);
      OneMoreEvent(l, s, h, v, a, n, HarvestEvents(v, n - 1).value);
    }
  }

  lemma {:induction false} AddLoopConcat(l: Limits, s: State, h: History, xs: seq<Candidate>, ys: seq<Candidate>)
    requires AddLoop(l, s, xs).error.None?
    ensures var mid, past := AddLoop(l, s, xs).state, LoopHistory(l, s, h, xs);
            && AddLoop(l, s, xs + ys) == AddLoop(l, mid, ys)
            && LoopHistory(l, s, h, xs + ys) == LoopHistory(l, mid, past, ys)
  {
    hide AddOne, NextHistory;
    if |ys| == 0 {
      assert xs + ys == xs;
    } else {
      var n := |ys| - 1;
      assert (xs + ys)[..|xs + ys| - 1] == xs + ys[..n];
      AddLoopConcat(l, s, h, xs, ys[..n]);
    }
  }

  // ---- adding the whole harvest ----

  /** One enrolled aggregate: where it lives and what it carries. */
  datatype Enrolled = Enrolled(address: Address, view: View, disposition: Disposition)

  function ViewsOf(es: seq<Enrolled>): (vs: seq<View>)
    ensures |vs| == |es| && forall i :: 0 <= i < |es| ==> vs[i] == es[i].view
  {
    seq(|es|, i requires 0 <= i < |es| => es[i].view)
  }

  ghost predicate Fits(s: State, h: History, e: Enrolled) {
    && AllFrom(e.view.pendingEvents, e.address) && UnknownEvents(s, e.view.pendingEvents)
    && (|e.view.pendingEvents| > 0 ==> HeadOlder(s.cursors, e.address, e.view.version))
    && HeadKnown(s.cursors, h, e.address)
    && Advanced(e.view)
  }

  /** Different aggregates, no event shared between them. */
  ghost predicate Separate(es: seq<Enrolled>) {
    && (forall i, j :: 0 <= i < j < |es| ==> es[i].address != es[j].address)
    && (forall i, j, k, m ::
          0 <= i < j < |es| && 0 <= k < |es[i].view.pendingEvents| && 0 <= m < |es[j].view.pendingEvents| ==>
          es[i].view.pendingEvents[k].eventId != es[j].view.pendingEvents[m].eventId)
  }

  ghost predicate CarriesId(es: seq<Enrolled>, x: string) {
    exists i, k :: 0 <= i < |es| && 0 <= k < |es[i].view.pendingEvents| && es[i].view.pendingEvents[k].eventId == x
  }

  /** What the chain of one address has become. */
  ghost predicate ChainAfter(s: State, h: History, e: Enrolled, s': State, h': History) {
    if |e.view.pendingEvents| == 0 then SameChain(s, h, e.address, s', h')
    else
      var cursor := CommitCursor(HeadVersion(s.cursors, e.address), e.view, |e.view.pendingEvents|);
      && e.address in s'.cursors && s'.cursors[e.address] == cursor
      && e.address in h' && h'[e.address] == ChainOf(h, e.address) + [cursor]
  }

  ghost predicate SameChain(s: State, h: History, a: Address, s': State, h': History) {
    && (a in s'.cursors <==> a in s.cursors) && (a in s.cursors ==> s'.cursors[a] == s.cursors[a])
    && (a in h' <==> a in h) && (a in h ==> h'[a] == h[a])
  }

  ghost predicate NotAmong(es: seq<Enrolled>, a: Address) {
    forall e :: e in es ==> e.address != a
  }

  ghost predicate AllAdded(s: State, h: History, es: seq<Enrolled>, s': State, h': History) {
    && (forall e :: e in es ==> ChainAfter(s, h, e, s', h'))
    && (forall a :: NotAmong(es, a) ==> SameChain(s, h, a, s', h'))
    && (forall x :: IsKnown(s', x) <==> IsKnown(s, x) || CarriesId(es, x))
  }

  /** The next aggregate still fits after the ones before it were added. */
  lemma StillFits(s: State, h: History, es: seq<Enrolled>, n: nat, s': State, h': History)
    requires n < |es| && Separate(es) && Fits(s, h, es[n]) && AllAdded(s, h, es[..n], s', h')
    ensures Fits(s', h', es[n])
    ensures SameChain(s, h, es[n].address, s', h')
  {
    var e := es[n];
    assert NotAmong(es[..n], e.address);
    assert SameChain(s, h, e.address, s', h');
    forall k | 0 <= k < |e.view.pendingEvents| ensures !IsKnown(s', e.view.pendingEvents[k].eventId) {
      assert !CarriesId(es[..n], e.view.pendingEvents[k].eventId);
    }
  }

  lemma OneMoreAdded(s: State, h: History, es: seq<Enrolled>, n: nat, mid: State, past: History, s': State, h': History)
    requires n < |es| && Separate(es)
    requires AllAdded(s, h, es[..n], mid, past) && SameChain(s, h, es[n].address, mid, past)
    requires CommitAdded(mid, past, es[n].view, es[n].address, |es[n].view.pendingEvents|, s', h')
    ensures AllAdded(s, h, es[..n + 1], s', h')
  {
    var a := es[n].address;
    assert es[..n + 1] == es[..n] + [es[n]];
    forall e | e in es[..n + 1] ensures ChainAfter(s, h, e, s', h') {
      if e in es[..n] {
        var i :| 0 <= i < n && es[..n][i] == e;
        assert es[i].address != a;
        assert ChainAfter(s, h, e, mid, past);
      }
    }
    forall b | NotAmong(es[..n + 1], b) ensures SameChain(s, h, b, s', h') {
      assert es[n] in es[..n + 1];
      assert NotAmong(es[..n], b);
      assert SameChain(s, h, b, mid, past);
    }
    KnownOneMore(s, es, n, mid, s');
  }

  lemma KnownOneMore(s: State, es: seq<Enrolled>, n: nat, mid: State, s': State)
    requires n < |es|
    requires forall x :: IsKnown(mid, x) <==> IsKnown(s, x) || CarriesId(es[..n], x)
    requires KnownAfter(mid, s', es[n].view.pendingEvents, |es[n].view.pendingEvents|)
    ensures forall x :: IsKnown(s', x) <==> IsKnown(s, x) || CarriesId(es[..n + 1], x)
  {
    forall x ensures IsKnown(s', x) <==> IsKnown(s, x) || CarriesId(es[..n + 1], x) {
      var events := es[n].view.pendingEvents;
      assert IsKnown(s', x) <==> IsKnown(mid, x) || exists k :: 0 <= k < |events| && events[k].eventId == x;
      CarriesSplit(es, n, x);
    }
  }

  lemma CarriesSplit(es: seq<Enrolled>, n: nat, x: string)
    requires n < |es|
    ensures CarriesId(es[..n + 1], x) <==>
            CarriesId(es[..n], x)
            || exists k :: 0 <= k < |es[n].view.pendingEvents| && es[n].view.pendingEvents[k].eventId == x
  {
    var longer := es[..n + 1];
    if CarriesId(es[..n], x) {
      var i, k :| 0 <= i < n && 0 <= k < |es[..n][i].view.pendingEvents|
        && es[..n][i].view.pendingEvents[k].eventId == x;
      assert longer[i] == es[..n][i];
    }
    if k :| 0 <= k < |es[n].view.pendingEvents| && es[n].view.pendingEvents[k].eventId == x {
      assert longer[n].view.pendingEvents[k].eventId == x;
    }
    if CarriesId(longer, x) {
      var i, k :| 0 <= i < n + 1 && 0 <= k < |longer[i].view.pendingEvents|
        && longer[i].view.pendingEvents[k].eventId == x;
      if i < n {
        assert es[..n][i] == longer[i];
      }
    }
  }

  /** A harvest of fitting, separate aggregates is accepted event by event; it extends each
      eventful aggregate's chain by its one whole commit and touches no other chain. */
  lemma {:induction false} HarvestIsAdded(l: Limits, s: State, h: History, es: seq<Enrolled>, n: nat)
    requires n <= |es| && Separate(es) && forall i :: 0 <= i < |es| ==> Fits(s, h, es[i])
    ensures Harvest(ViewsOf(es[..n])).Ok?
    ensures var cs := Harvest(ViewsOf(es[..n])).value;
            && AddLoop(l, s, cs).error.None?
            && AllAdded(s, h, es[..n], AddLoop(l, s, cs).state, LoopHistory(l, s, h, cs))
  {
    if n > 0 {
      var m := n - 1;
      HarvestIsAdded(l, s, h, es, m);
      assert ViewsOf(es[..n])[..m] == ViewsOf(es[..m]);
      var init := Harvest(ViewsOf(es[..m])).value;
      var mid, past := AddLoop(l, s, init).state, LoopHistory(l, s, h, init);
      StillFits(s, h, es, m, mid, past);
      LastIsAdded(l, mid, past, es[m]);
      var last := HarvestOne(es[m].view).value;
      AddLoopConcat(l, s, h, init, last);
      OneMoreAdded(s, h, es, m, mid, past, AddLoop(l, mid, last).state, LoopHistory(l, mid, past, last));
      hide AllAdded, Fits, Separate, CommitAdded, AddLoop, LoopHistory;
    }
  }

  lemma LastIsAdded(l: Limits, s: State, h: History, e: Enrolled)
    requires Fits(s, h, e)
    ensures HarvestOne(e.view).Ok?
    ensures var cs := HarvestOne(e.view).value;
            && AddLoop(l, s, cs).error.None?
            && CommitAdded(s, h, e.view, e.address, |e.view.pendingEvents|,
                           AddLoop(l, s, cs).state, LoopHistory(l, s, h, cs))
  {
    if |e.view.pendingEvents| > 0 {
      CommitIsAdded(l, s, h, e.view, e.address, |e.view.pendingEvents|);
    } else {
      assert HarvestOne(e.view) == Ok([]);
    }
  }

  // ---- events and the chains that hold them ----

  /** Commit i of this source holds the event at sequence k. */
  ghost predicate OwnerAt(h: History, a: Address, i: int, k: int, id: string) {
    a in h && 0 <= i < |h[a]| && k in h[a][i].owners && h[a][i].owners[k] == id
  }

  ghost predicate NeverCommitted(h: History, id: string) {
    forall a, i, k :: !OwnerAt(h, a, i, k, id)
  }

  ghost predicate NoneCommitted(h: History, events: seq<Event>) {
    forall n :: 0 <= n < |events| ==> NeverCommitted(h, events[n].eventId)
  }

  ghost predicate OwnedOnce(h: History) {
    forall a, i, k, b, j, m, id :: OwnerAt(h, a, i, k, id) && OwnerAt(h, b, j, m, id) ==> a == b && i == j && k == m
  }

  ghost predicate DistinctIds(events: seq<Event>) {
    forall j, k :: 0 <= j < k < |events| ==> events[j].eventId != events[k].eventId
  }

  lemma FinalizedIsOwner(h: History, a: Address, id: string, p: CandidatePosition)
    requires FinalizedCandidate(h, a, id, p)
    ensures !NeverCommitted(h, id)
  {
    var i :| 0 <= i < |h[a]| && OwnsCandidate(h[a][i], id, p);
    assert OwnerAt(h, a, i, p.commitSequence, id);
  }

  /** Whatever the outbox knows was committed. */
  lemma KnownIsCommitted(s: State, h: History, id: string)
    requires ChainInv(s, h) && IsKnown(s, id)
    ensures !NeverCommitted(h, id)
  {
    hide HeadsAreLast, Finalized, FinalizedCandidate, NeverCommitted;
    if s.pending.Has(id) {
      FinalizedForgetsLink(h, s.pending.entries[id].source, id, s.pending.entries[id].position);
      FinalizedIsOwner(h, s.pending.entries[id].source, id, Unlinked(s.pending.entries[id].position));
    } else if s.dead.Has(id) {
      FinalizedForgetsLink(h, s.dead.entries[id].source, id, s.dead.entries[id].position);
      FinalizedIsOwner(h, s.dead.entries[id].source, id, Unlinked(s.dead.entries[id].position));
    } else {
      FinalizedIsOwner(h, s.dispatched.entries[id].source, id, s.dispatched.entries[id].position);
    }
  }

  // ---- a harvest against the heads ----

  /** The aggregate carries addressed events of its own that no commit holds. */
  ghost predicate CarriesNew(h: History, e: Enrolled) {
    && AllFrom(e.view.pendingEvents, e.address) && DistinctIds(e.view.pendingEvents)
    && NoneCommitted(h, e.view.pendingEvents)
  }

  ghost predicate HarvestOf(h: History, es: seq<Enrolled>, cs: seq<Candidate>) {
    Separate(es) && (forall i :: 0 <= i < |es| ==> CarriesNew(h, es[i])) && Harvest(ViewsOf(es)) == Ok(cs)
  }

  /** The batch is what `withCommit` harvests from some enrolled aggregates. */
  ghost predicate IsHarvest(h: History, cs: seq<Candidate>) {
    exists es :: HarvestOf(h, es, cs)
  }

  predicate Eventful(e: Enrolled) { |e.view.pendingEvents| > 0 }

  /** An eventful aggregate whose version is below its source's retained head. */
  predicate IsBelow(cursors: Cursors, e: Enrolled) {
    Eventful(e) && e.address in cursors && e.view.version < cursors[e.address].aggregateVersion
  }

  /** It has no events, or its version is above its source's head. */
  ghost predicate IsAbove(cursors: Cursors, e: Enrolled) {
    Eventful(e) ==> HeadOlder(cursors, e.address, e.view.version)
  }

  ghost predicate FirstAbove(cursors: Cursors, es: seq<Enrolled>, n: nat)
    requires n <= |es|
  {
    forall i :: 0 <= i < n ==> IsAbove(cursors, es[i])
  }

  lemma NewIsUnknown(s: State, h: History, events: seq<Event>)
    requires ChainInv(s, h) && NoneCommitted(h, events) && DistinctIds(events)
    ensures UnknownEvents(s, events)
  {
    hide ChainInv, NeverCommitted, IsKnown;
    forall k | 0 <= k < |events| ensures !IsKnown(s, events[k].eventId) {
      if IsKnown(s, events[k].eventId) {
        KnownIsCommitted(s, h, events[k].eventId);
      }
    }
  }

  lemma AboveFits(s: State, h: History, e: Enrolled)
    requires ChainInv(s, h) && CarriesNew(h, e) && IsAbove(s.cursors, e) && Advanced(e.view)
    ensures Fits(s, h, e)
  {
    NewIsUnknown(s, h, e.view.pendingEvents);
    hide AllFrom, UnknownEvents, NoneCommitted, DistinctIds, RecordsFinalized, ReceiptsFinalized;
    if e.address in h {
      assert Linked(h[e.address]);
    }
  }

  /** The aggregates above their heads are accepted, up to the first that is not. */
  lemma AboveAreAdded(l: Limits, s: State, h: History, es: seq<Enrolled>, n: nat)
    requires ChainInv(s, h) && Harvest(ViewsOf(es)).Ok? && HarvestOf(h, es, Harvest(ViewsOf(es)).value)
    requires n <= |es| && FirstAbove(s.cursors, es, n)
    ensures Harvest(ViewsOf(es[..n])).Ok?
    ensures var cs := Harvest(ViewsOf(es[..n])).value;
            && AddLoop(l, s, cs).error.None?
            && AllAdded(s, h, es[..n], AddLoop(l, s, cs).state, LoopHistory(l, s, h, cs))
  {
    HarvestIsExact(ViewsOf(es));
    hide ChainInv, CarriesNew, Harvest, InPlace, AddLoop, LoopHistory, AllAdded;
    var some := es[..n];
    forall i | 0 <= i < |some| ensures Fits(s, h, some[i]) {
      assert Harvestable(ViewsOf(es)[i]) && CarriesNew(h, es[i]) && IsAbove(s.cursors, es[i]);
      AboveFits(s, h, es[i]);
    }
    hide Fits;
    SomeAreSeparate(es, n);
    HarvestIsAdded(l, s, h, some, n);
    assert some[..n] == some;
  }

  lemma SomeAreSeparate(es: seq<Enrolled>, n: nat)
    requires Separate(es) && n <= |es|
    ensures Separate(es[..n])
  {
    forall i, j, k, m |
        0 <= i < j < n && 0 <= k < |es[i].view.pendingEvents| && 0 <= m < |es[j].view.pendingEvents|
      ensures es[i].view.pendingEvents[k].eventId != es[j].view.pendingEvents[m].eventId {
    }
  }

  // ---- where the loop stops ----

  lemma {:induction false} HarvestPrefix(vs: seq<View>, n: nat)
    requires Harvest(vs).Ok? && n <= |vs|
    ensures Harvest(vs[..n]).Ok? && Harvest(vs[..n]).value <= Harvest(vs).value
    decreases |vs|
  {
    if n == |vs| {
      assert vs[..n] == vs;
    } else {
      HarvestPrefix(vs[..|vs| - 1], n);
      assert vs[..|vs| - 1][..n] == vs[..n];
    }
  }

  /** The first event of an eventful aggregate follows the harvest of those before it. */
  lemma NextInHarvest(es: seq<Enrolled>, n: nat)
    requires Harvest(ViewsOf(es)).Ok? && n < |es| && Eventful(es[n])
    ensures Harvest(ViewsOf(es[..n])).Ok?
    ensures Addressed(es[n].view.pendingEvents[0])
    ensures var xs, cs := Harvest(ViewsOf(es[..n])).value, Harvest(ViewsOf(es)).value;
            && |xs| < |cs| && cs[..|xs|] == xs
            && cs[|xs|] == Positioned(es[n].view, 0)
  {
    var vs := ViewsOf(es);
    assert ViewsOf(es[..n]) == vs[..n];
    HarvestPrefix(vs, n);
    HarvestIsExact(vs);
    HarvestIsExact(vs[..n]);
    OffsetPrefix(vs, n, n);
    assert InPlace(vs, Harvest(vs).value, n, 0);
    hide Harvest;
  }

  lemma {:induction false} ErrorSticks(l: Limits, s: State, h: History, cs: seq<Candidate>, n: nat)
    requires n <= |cs| && AddLoop(l, s, cs[..n]).error.Some?
    ensures AddLoop(l, s, cs) == AddLoop(l, s, cs[..n])
    ensures LoopHistory(l, s, h, cs) == LoopHistory(l, s, h, cs[..n])
    decreases |cs|
  {
    if n == |cs| {
      assert cs[..n] == cs;
    } else {
      assert cs[..|cs| - 1][..n] == cs[..n];
      ErrorSticks(l, s, h, cs[..|cs| - 1], n);
    }
  }

  lemma OneErrorStops(l: Limits, s: State, h: History, cs: seq<Candidate>, n: nat)
    requires n < |cs| && AddLoop(l, s, cs[..n]).error.None? && AddOne(l, AddLoop(l, s, cs[..n]).state, cs[n]).Err?
    ensures var mid := AddLoop(l, s, cs[..n]).state;
            && AddLoop(l, s, cs) == AddOutcome(mid, Some(AddOne(l, mid, cs[n]).error))
            && LoopHistory(l, s, h, cs) == LoopHistory(l, s, h, cs[..n])
  {
    assert cs[..n + 1][..n] == cs[..n];
    hide AddOne, NextHistory;
    ErrorSticks(l, s, h, cs, n + 1);
  }

  /** A fresh event at or below the head: at it the pre-check objects, below it the loop does. */
  lemma NotAboveIsStale(l: Limits, now: State, c: Candidate)
    requires IsFresh(now, c) && c.source in now.cursors
    requires c.position.aggregateVersion < now.cursors[c.source].aggregateVersion
    ensures AddOne(l, now, c) == Err(StaleHead)
  {
    assert StoredMismatch(now, c).None?;
  }

  lemma AtHeadConflicts(cursors: Cursors, h: History, c: Candidate)
    requires c.source in cursors && c.source in h && |h[c.source]| > 0
    requires h[c.source][|h[c.source]| - 1] == cursors[c.source]
    requires WholeCommit(cursors[c.source]) && NeverCommitted(h, c.event.eventId)
    requires c.position.aggregateVersion == cursors[c.source].aggregateVersion
    requires 0 <= c.position.commitSequence < c.position.commitSize
    ensures SimulateOne(cursors, c).Err?
  {
    var k := c.position.commitSequence;
    var head := cursors[c.source];
    if head.commitSize == c.position.commitSize {
      assert k in head.owners;
      assert !OwnerAt(h, c.source, |h[c.source]| - 1, k, c.event.eventId);
    }
  }

  lemma StillNew(s: State, h: History, es: seq<Enrolled>, n: nat, s': State, h': History)
    requires n < |es| && Separate(es) && UnknownEvents(s, es[n].view.pendingEvents) && AllAdded(s, h, es[..n], s', h')
    ensures UnknownEvents(s', es[n].view.pendingEvents) && SameChain(s, h, es[n].address, s', h')
  {
    assert NotAmong(es[..n], es[n].address);
    forall k | 0 <= k < |es[n].view.pendingEvents| ensures !IsKnown(s', es[n].view.pendingEvents[k].eventId) {
      assert !CarriesId(es[..n], es[n].view.pendingEvents[k].eventId);
    }
  }

  /** After the harvest of the aggregates before it, an eventful aggregate that is not above its
      head is below it, and its first event is stale there. */
  lemma NotAboveStops(l: Limits, s: State, h: History, es: seq<Enrolled>, n: nat, cs: seq<Candidate>)
    requires ValidLimits(l) && Inv(l, s, h) && WholeCommits(h) && HarvestOf(h, es, cs) && Precheck(l, s, cs).None?
    requires n < |es| && FirstAbove(s.cursors, es, n) && !IsAbove(s.cursors, es[n])
    ensures IsBelow(s.cursors, es[n])
    ensures Harvest(ViewsOf(es[..n])).Ok?
    ensures var xs := Harvest(ViewsOf(es[..n])).value;
            && |xs| < |cs| && cs[..|xs|] == xs
            && Addressed(es[n].view.pendingEvents[0]) && cs[|xs|] == Positioned(es[n].view, 0)
            && AddLoop(l, s, xs).error.None?
            && AddOne(l, AddLoop(l, s, xs).state, cs[|xs|]) == Err(StaleHead)
  {
    hide Inv, ChainInv, StorageInv, WholeCommits, NoneCommitted, NoRefresh, Precheck, UnknownEvents, AllFrom;
    hide Positioned, Harvest, AddLoop, LoopHistory, AllAdded, Simulate, ReceiptPrecheck, AddOne, IsAbove, FirstAbove;
    hide IsBelow, SameChain;
    HarvestParts(l, s, h, es, cs, n);
    NotAboveHasHead(s, es[n]);
    NextInHarvest(es, n);
    AboveAreAdded(l, s, h, es, n);
    var xs := Harvest(ViewsOf(es[..n])).value;
    var mid := AddLoop(l, s, xs).state;
    StillNew(s, h, es, n, mid, LoopHistory(l, s, h, xs));
    SimulatedPrefix(l, s, h, cs, |xs|);
    HeadIsWhole(s, h, es[n].address);
    SameHead(s, h, es[n].address, mid, LoopHistory(l, s, h, xs));
    StopsHere(l, s, h, es[n], cs, |xs|, mid);
  }

  lemma SameHead(s: State, h: History, a: Address, s': State, h': History)
    requires SameChain(s, h, a, s', h') && a in s.cursors
    ensures a in s'.cursors && s'.cursors[a] == s.cursors[a]
  {
  }

  /** What is known of a harvest that passed the pre-checks, and of its n-th aggregate. */
  lemma HarvestParts(l: Limits, s: State, h: History, es: seq<Enrolled>, cs: seq<Candidate>, n: nat)
    requires Inv(l, s, h) && HarvestOf(h, es, cs) && Precheck(l, s, cs).None? && n < |es|
    ensures StorageInv(l, s) && ChainInv(s, h) && HeadsAreLast(s.cursors, h) && NoRefresh(s, cs)
    ensures ReceiptPrecheck(s, cs).None? && Simulate(s.cursors, cs).Ok?
    ensures AllFrom(es[n].view.pendingEvents, es[n].address) && NoneCommitted(h, es[n].view.pendingEvents)
    ensures UnknownEvents(s, es[n].view.pendingEvents)
  {
    HarvestHasNoRefresh(s, h, es);
    hide StorageInv, WithinLimits, HeadsAreLast, NoneCommitted, NoRefresh, ReceiptPrecheck, Simulate, Harvest, Separate;
    assert CarriesNew(h, es[n]);
    hide ChainInv;
    NewIsUnknown(s, h, es[n].view.pendingEvents);
  }

  lemma NotAboveHasHead(s: State, e: Enrolled)
    requires !IsAbove(s.cursors, e)
    ensures Eventful(e) && e.address in s.cursors
  {
  }

  /** Up to an accepted prefix the pre-check has the loop's heads, and it accepts the next one. */
  lemma SimulatedPrefix(l: Limits, s: State, h: History, cs: seq<Candidate>, n: nat)
    requires ValidLimits(l) && StorageInv(l, s) && ChainInv(s, h) && NoRefresh(s, cs) && n < |cs|
    requires ReceiptPrecheck(s, cs).None? && Simulate(s.cursors, cs).Ok? && AddLoop(l, s, cs[..n]).error.None?
    ensures Simulate(s.cursors, cs[..n]) == Ok(AddLoop(l, s, cs[..n]).state.cursors)
    ensures Simulate(s.cursors, cs[..n + 1]).Ok?
  {
    hide ChainInv, StorageInv, NoRefresh, AddLoop, Simulate, ReceiptPrecheck;
    PrefixNoRefresh(s, cs, n);
    PrefixChecks(s, cs, n);
    PrefixChecks(s, cs, n + 1);
    LoopKeepsInvariants(l, s, h, cs[..n]);
  }

  lemma StopsHere(l: Limits, s: State, h: History, e: Enrolled, cs: seq<Candidate>, n: nat, mid: State)
    requires n < |cs| && Eventful(e) && Addressed(e.view.pendingEvents[0]) && cs[n] == Positioned(e.view, 0)
    requires AllFrom(e.view.pendingEvents, e.address) && NoneCommitted(h, e.view.pendingEvents)
    requires !IsAbove(s.cursors, e) && UnknownEvents(mid, e.view.pendingEvents)
    requires e.address in mid.cursors && e.address in s.cursors && mid.cursors[e.address] == s.cursors[e.address]
    requires e.address in h && |h[e.address]| > 0 && h[e.address][|h[e.address]| - 1] == s.cursors[e.address]
    requires WholeCommit(s.cursors[e.address])
    requires Simulate(s.cursors, cs[..n]) == Ok(mid.cursors) && Simulate(s.cursors, cs[..n + 1]).Ok?
    ensures IsBelow(s.cursors, e)
    ensures AddOne(l, mid, cs[n]) == Err(StaleHead)
  {
    assert cs[..n + 1][..n] == cs[..n];
    assert SimulateOne(mid.cursors, cs[n]).Ok?;
    assert SourceOf(e.view.pendingEvents[0]) == e.address;
    hide Simulate;
    if e.view.version == s.cursors[e.address].aggregateVersion {
      AtHeadConflicts(mid.cursors, h, cs[n]);
    }
    NotAboveIsStale(l, mid, cs[n]);
  }

  lemma HeadIsWhole(s: State, h: History, a: Address)
    requires HeadsAreLast(s.cursors, h) && WholeCommits(h)
    ensures a in s.cursors ==>
              a in h && |h[a]| > 0 && h[a][|h[a]| - 1] == s.cursors[a] && WholeCommit(s.cursors[a])
  {
  }

  lemma PrefixNoRefresh(s: State, cs: seq<Candidate>, n: nat)
    requires NoRefresh(s, cs) && n <= |cs|
    ensures NoRefresh(s, cs[..n])
  {
    forall i | 0 <= i < n ensures !IsVersionRefresh(s, cs[..n][i]) {
      assert cs[..n][i] == cs[i];
    }
  }

  lemma {:induction false} HarvestedEventsUnknown(s: State, v: View, n: nat)
    requires n <= |v.pendingEvents| && UnknownEvents(s, v.pendingEvents) && HarvestEvents(v, n).Ok?
    ensures NoRefresh(s, HarvestEvents(v, n).value)
  {
    if n > 0 {
      HarvestedEventsUnknown(s, v, n - 1);
    }
  }

  lemma {:induction false} HarvestRefreshesNothing(s: State, vs: seq<View>)
    requires Harvest(vs).Ok? && forall i :: 0 <= i < |vs| ==> UnknownEvents(s, vs[i].pendingEvents)
    ensures NoRefresh(s, Harvest(vs).value)
  {
    if |vs| > 0 {
      var n := |vs| - 1;
      HarvestRefreshesNothing(s, vs[..n]);
      HarvestedEventsUnknown(s, vs[n], |vs[n].pendingEvents|);
      hide UnknownEvents, IsVersionRefresh;
    }
  }

  lemma HarvestHasNoRefresh(s: State, h: History, es: seq<Enrolled>)
    requires ChainInv(s, h) && Harvest(ViewsOf(es)).Ok? && forall i :: 0 <= i < |es| ==> CarriesNew(h, es[i])
    ensures NoRefresh(s, Harvest(ViewsOf(es)).value)
  {
    hide ChainInv, Harvest, UnknownEvents;
    forall i | 0 <= i < |es| ensures UnknownEvents(s, ViewsOf(es)[i].pendingEvents) {
      assert CarriesNew(h, es[i]);
      NewIsUnknown(s, h, es[i].view.pendingEvents);
    }
    HarvestRefreshesNothing(s, ViewsOf(es));
  }

  /** What `add` does with a harvest that passes the pre-checks: it takes the aggregates up to the
      first that is below its head, and only such a one stops it. */
  ghost predicate TakesFirst(l: Limits, s: State, h: History, es: seq<Enrolled>, cs: seq<Candidate>, n: nat)
    requires n <= |es|
  {
    && FirstAbove(s.cursors, es, n)
    && (n < |es| ==> IsBelow(s.cursors, es[n]))
    && Add(l, s, cs).error == (if n < |es| then Some(StaleHead) else None)
    && Harvest(ViewsOf(es[..n])).Ok?
    && Add(l, s, cs).state == AddLoop(l, s, Harvest(ViewsOf(es[..n])).value).state
    && AllAdded(s, h, es[..n], Add(l, s, cs).state, AddHistory(l, s, h, cs))
  }

  lemma HowManyAbove(s: State, es: seq<Enrolled>) returns (n: nat)
    ensures n <= |es| && FirstAbove(s.cursors, es, n) && (n < |es| ==> !IsAbove(s.cursors, es[n]))
  {
    n := 0;
    while n < |es| && (|es[n].view.pendingEvents| > 0 ==>
            (es[n].address in s.cursors ==> s.cursors[es[n].address].aggregateVersion < es[n].view.version))
      invariant n <= |es| && FirstAbove(s.cursors, es, n)
    {
      n := n + 1;
    }
  }

  lemma HarvestOutcome(l: Limits, s: State, h: History, es: seq<Enrolled>, cs: seq<Candidate>) returns (n: nat)
    requires ValidLimits(l) && Inv(l, s, h) && WholeCommits(h) && HarvestOf(h, es, cs) && Precheck(l, s, cs).None?
    ensures n <= |es| && TakesFirst(l, s, h, es, cs, n)
  {
    n := HowManyAbove(s, es);
    hide WholeCommits, IsAbove, IsBelow, Precheck, AllAdded, StorageInv, WithinLimits, FirstAbove;
    AboveAreAdded(l, s, h, es, n);
    var xs := Harvest(ViewsOf(es[..n])).value;
    if n < |es| {
      NotAboveStops(l, s, h, es, n, cs);
      hide ChainInv, HarvestOf;
      OneErrorStops(l, s, h, cs, |xs|);
    } else {
      assert es[..n] == es;
    }
  }

  /** A harvest that passes the pre-checks is refused if and only if an eventful aggregate is below
      its source's retained head, and then for that stale head. */
  lemma HarvestStaleIff(l: Limits, s: State, h: History, es: seq<Enrolled>, cs: seq<Candidate>)
    requires ValidLimits(l) && Inv(l, s, h) && WholeCommits(h) && HarvestOf(h, es, cs) && Precheck(l, s, cs).None?
    ensures Add(l, s, cs).error == Some(StaleHead) <==> exists i :: 0 <= i < |es| && IsBelow(s.cursors, es[i])
    ensures Add(l, s, cs).error in {None, Some(StaleHead)}
  {
    var n := HarvestOutcome(l, s, h, es, cs);
    hide Inv, WholeCommits, HarvestOf, AllAdded, Precheck, Add;
    forall i | 0 <= i < n ensures !IsBelow(s.cursors, es[i]) {
      assert IsAbove(s.cursors, es[i]);
    }
  }

  /** Aggregate j has events and is harvested before the first that is below its head. */
  predicate BeforeFirstBelow(cursors: Cursors, es: seq<Enrolled>, j: nat) {
    && j < |es| && Eventful(es[j])
    && (forall i :: 0 <= i <= j ==> !IsBelow(cursors, es[i]))
  }

  /** A harvest refused after the pre-checks leaves a prefix if and only if an eventful aggregate is
      harvested before the first one that is below its head. */
  lemma HarvestLeavesPrefixIff(l: Limits, s: State, h: History, es: seq<Enrolled>, cs: seq<Candidate>)
    requires ValidLimits(l) && Inv(l, s, h) && WholeCommits(h) && HarvestOf(h, es, cs) && Precheck(l, s, cs).None?
    requires Add(l, s, cs).error.Some?
    ensures Add(l, s, cs).state != s <==> exists j: nat :: BeforeFirstBelow(s.cursors, es, j)
  {
    var n := HarvestOutcome(l, s, h, es, cs);
    forall i | 0 <= i < n ensures !IsBelow(s.cursors, es[i]) {
      assert IsAbove(s.cursors, es[i]);
    }
    assert Inv(l, s, h);
    hide Inv, WholeCommits, AllAdded, Precheck, Add, HarvestOf;
    if j: nat :| BeforeFirstBelow(s.cursors, es, j) {
      assert j < n;
      EventfulPrefixChanges(l, s, h, es, cs, n, j);
    } else {
      EventlessPrefixKeeps(l, s, h, es, cs, n);
    }
  }

  lemma EventfulPrefixChanges(l: Limits, s: State, h: History, es: seq<Enrolled>, cs: seq<Candidate>, n: nat, j: nat)
    requires Inv(l, s, h) && HarvestOf(h, es, cs) && j < n <= |es| && Eventful(es[j])
    requires AllAdded(s, h, es[..n], Add(l, s, cs).state, AddHistory(l, s, h, cs))
    ensures Add(l, s, cs).state != s
  {
    var id := es[j].view.pendingEvents[0].eventId;
    assert CarriesNew(h, es[j]);
    NewIsUnknown(s, h, es[j].view.pendingEvents);
    assert es[..n][j] == es[j] && CarriesId(es[..n], id);
    hide Inv, Add, AddHistory, ChainAfter, SameChain;
    assert IsKnown(Add(l, s, cs).state, id) && !IsKnown(s, id);
  }

  lemma EventlessPrefixKeeps(l: Limits, s: State, h: History, es: seq<Enrolled>, cs: seq<Candidate>, n: nat)
    requires n <= |es| && TakesFirst(l, s, h, es, cs, n)
    requires forall j: nat :: j < n ==> !BeforeFirstBelow(s.cursors, es, j)
    requires forall i :: 0 <= i < n ==> !IsBelow(s.cursors, es[i])
    ensures Add(l, s, cs).state == s
  {
    var vs := ViewsOf(es[..n]);
    HarvestIsExact(vs);
    forall i | 0 <= i < n ensures |vs[i].pendingEvents| == 0 {
      assert !BeforeFirstBelow(s.cursors, es, i);
    }
    NothingOffset(vs, n);
    assert Harvest(vs).value == [];
  }

  lemma {:induction false} NothingOffset(vs: seq<View>, n: nat)
    requires n <= |vs| && forall i :: 0 <= i < n ==> |vs[i].pendingEvents| == 0
    ensures Offset(vs, n) == 0
  {
    if n > 0 {
      NothingOffset(vs, n - 1);
    }
  }

  // ---- what a harvest keeps ----

  lemma WholeAfter(s: State, h: History, es: seq<Enrolled>, s': State, h': History)
    requires WholeCommits(h) && AllAdded(s, h, es, s', h')
    ensures WholeCommits(h')
  {
    forall a, i | a in h' && 0 <= i < |h'[a]| ensures WholeCommit(h'[a][i]) {
      if NotAmong(es, a) {
        assert SameChain(s, h, a, s', h');
      } else {
        var e :| e in es && e.address == a;
        assert ChainAfter(s, h, e, s', h');
        OwnersAre(e.view.pendingEvents, |e.view.pendingEvents|);
      }
    }
  }

  /** Adding a harvest keeps every commit of the history whole, also when it stops halfway. */
  lemma HarvestKeepsWhole(l: Limits, s: State, h: History, cs: seq<Candidate>)
    requires ValidLimits(l) && Inv(l, s, h) && WholeCommits(h) && IsHarvest(h, cs)
    ensures WholeCommits(AddHistory(l, s, h, cs))
  {
    if Precheck(l, s, cs).None? {
      var es :| HarvestOf(h, es, cs);
      var n := HarvestOutcome(l, s, h, es, cs);
      hide WholeCommits, AllAdded, Inv, Precheck, HarvestOf, Add, AddHistory;
      WholeAfter(s, h, es[..n], Add(l, s, cs).state, AddHistory(l, s, h, cs));
    }
  }

  /** The event is the k-th of the commit that this aggregate adds. */
  ghost predicate AddedAt(h: History, es: seq<Enrolled>, a: Address, i: int, k: int, id: string) {
    exists n :: 0 <= n < |es| && es[n].address == a && i == |ChainOf(h, a)|
      && 0 <= k < |es[n].view.pendingEvents| && es[n].view.pendingEvents[k].eventId == id
  }

  lemma OwnersAfter(s: State, h: History, es: seq<Enrolled>, s': State, h': History, a: Address, i: int, k: int,
                    id: string)
    requires AllAdded(s, h, es, s', h') && OwnerAt(h', a, i, k, id)
    ensures OwnerAt(h, a, i, k, id) || AddedAt(h, es, a, i, k, id)
  {
    if NotAmong(es, a) {
      assert SameChain(s, h, a, s', h');
    } else {
      var e :| e in es && e.address == a;
      var n :| 0 <= n < |es| && es[n] == e;
      assert ChainAfter(s, h, e, s', h');
      OwnersAre(e.view.pendingEvents, |e.view.pendingEvents|);
    }
  }

  /** The enrolled aggregates carry events of their own that no commit holds. */
  ghost predicate FreshCommits(h: History, es: seq<Enrolled>) {
    && (forall n :: 0 <= n < |es| ==> NoneCommitted(h, es[n].view.pendingEvents))
    && (forall n, m, k, j ::
          0 <= n < |es| && 0 <= m < |es|
          && 0 <= k < |es[n].view.pendingEvents| && 0 <= j < |es[m].view.pendingEvents| ==>
            es[n].view.pendingEvents[k].eventId == es[m].view.pendingEvents[j].eventId ==> n == m && k == j)
  }

  lemma HarvestIsFresh(h: History, es: seq<Enrolled>)
    requires Separate(es) && forall i :: 0 <= i < |es| ==> CarriesNew(h, es[i])
    ensures FreshCommits(h, es)
  {
    hide NoneCommitted;
    forall i | 0 <= i < |es|
      ensures NoneCommitted(h, es[i].view.pendingEvents) && DistinctIds(es[i].view.pendingEvents) {
      assert CarriesNew(h, es[i]);
    }
  }

  lemma LandedOwnedOnce(s: State, h: History, es: seq<Enrolled>, s': State, h': History)
    requires AllAdded(s, h, es, s', h') && FreshCommits(h, es) && OwnedOnce(h)
    ensures OwnedOnce(h')
  {
    forall a, i, k, b, j, m, id | OwnerAt(h', a, i, k, id) && OwnerAt(h', b, j, m, id)
      ensures a == b && i == j && k == m {
      OwnersAfter(s, h, es, s', h', a, i, k, id);
      OwnersAfter(s, h, es, s', h', b, j, m, id);
      hide AllAdded;
      if AddedAt(h, es, a, i, k, id) {
        AddedIsNew(h, es, a, i, k, id);
      }
      if AddedAt(h, es, b, j, m, id) {
        AddedIsNew(h, es, b, j, m, id);
      }
      hide OwnerAt;
    }
  }

  lemma AddedIsNew(h: History, es: seq<Enrolled>, a: Address, i: int, k: int, id: string)
    requires FreshCommits(h, es) && AddedAt(h, es, a, i, k, id)
    ensures NeverCommitted(h, id)
  {
  }
}
