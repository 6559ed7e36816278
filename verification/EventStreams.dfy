/** The in-memory event store: guarded appends that only ever extend a stream, and page reads. */
module EventStreams {
  import opened Common
  import opened OrderedMaps

  datatype Capacity = Capacity(maxStreams: Option<nat>, maxEvents: Option<nat>)

  type Streams<!E> = OrderedMap<Address, seq<E>>

  datatype AppendError = ConcurrencyConflict(expected: int, actual: nat) | StreamCapacity | EventCapacity

  datatype Page<E> = Page(exists_: bool, lastVersion: nat, events: seq<E>)

  datatype AppendRequest<E> = AppendRequest(stream: Address, events: seq<E>, expectedVersion: int)

  function EventsOf<E>(s: Streams<E>, stream: Address): seq<E> {
    if s.Has(stream) then s.entries[stream] else []
  }

  /** The number of events in the listed streams. */
  function Total<E>(order: seq<Address>, entries: map<Address, seq<E>>): nat
    requires forall i :: 0 <= i < |order| ==> order[i] in entries
  {
    if |order| == 0 then 0 else Total(order[..|order| - 1], entries) + |entries[order[|order| - 1]]|
  }

  /** Append as it must behave: refused without any change, or the events added at the end. */
  function Append<E>(c: Capacity, s: Streams<E>, total: nat, r: AppendRequest<E>): Result<Streams<E>, AppendError> {
    var existing := EventsOf(s, r.stream);
    if |r.events| == 0 then Ok(s)
    else if |existing| != r.expectedVersion then Err(ConcurrencyConflict(r.expectedVersion, |existing|))
    else if !s.Has(r.stream) && c.maxStreams.Some? && s.Size() >= c.maxStreams.value then Err(StreamCapacity)
    else if c.maxEvents.Some? && total + |r.events| > c.maxEvents.value then Err(EventCapacity)
    else Ok(s.Set(r.stream, existing + r.events))
  }

  /** The window (fromVersion, toVersion], cut at `limit` events and at the head. */
  function ReadStream<E>(s: Streams<E>, stream: Address, fromVersion: nat, toVersion: Option<nat>, limit: nat)
    : Page<E>
  {
    if !s.Has(stream) then Page(false, 0, []) else
    var events := s.entries[stream];
    var pageEnd := Min(Min(if toVersion.Some? then toVersion.value else |events|, fromVersion + limit), |events|);
    Page(true, |events|, if fromVersion <= pageEnd then events[fromVersion..pageEnd] else [])
  }

  function Min(a: nat, b: nat): nat { if a < b then a else b }

  /** Every stream of the first is a prefix of the same stream of the second. */
  ghost predicate Extended<E(!new)>(before: Streams<E>, after: Streams<E>) {
    forall a :: before.Has(a) ==> after.Has(a) && before.entries[a] <= after.entries[a]
  }

  lemma ExtendedReflexive<E(!new)>(s: Streams<E>)
    ensures Extended(s, s)
  {
  }

  lemma ExtendedTransitive<E(!new)>(a: Streams<E>, b: Streams<E>, c: Streams<E>)
    requires Extended(a, b) && Extended(b, c)
    ensures Extended(a, c)
  {
  }

  /** An append that succeeds extends its own stream by its events and touches no other. */
  lemma AppendExtends<E(!new)>(c: Capacity, s: Streams<E>, total: nat, r: AppendRequest<E>)
    requires Append(c, s, total, r).Ok?
    ensures Extended(s, Append(c, s, total, r).value)
    ensures EventsOf(Append(c, s, total, r).value, r.stream) == EventsOf(s, r.stream) + r.events
    ensures forall a :: a != r.stream ==> EventsOf(Append(c, s, total, r).value, a) == EventsOf(s, a)
    ensures |r.events| > 0 ==> r.expectedVersion == |EventsOf(s, r.stream)|
  {
  }

  predicate HasRoomFor<E>(c: Capacity, s: Streams<E>, total: nat, r: AppendRequest<E>) {
    WithinCapacity(c, if s.Has(r.stream) then s.Size() else s.Size() + 1, total + |r.events|)
  }

  /** Events are accepted if and only if the stream is at the expected version and stream and event
      count stay within their limits; the version decides before the limits, streams before events. */
  lemma AppendAcceptsIff<E(!new)>(c: Capacity, s: Streams<E>, total: nat, r: AppendRequest<E>)
    requires Consistent(c, s, total) && |r.events| > 0
    ensures Append(c, s, total, r).Ok? <==>
            |EventsOf(s, r.stream)| == r.expectedVersion && HasRoomFor(c, s, total, r)
    ensures Append(c, s, total, r) == Err(ConcurrencyConflict(r.expectedVersion, |EventsOf(s, r.stream)|)) <==>
            |EventsOf(s, r.stream)| != r.expectedVersion
    ensures Append(c, s, total, r) == Err(StreamCapacity) <==>
            |EventsOf(s, r.stream)| == r.expectedVersion && !s.Has(r.stream) && c.maxStreams == Some(s.Size())
  {
    hide Counts, NoneEmpty;
  }

  /** The page holds the events after `fromVersion` in stream order, at most `limit`, none past
      `toVersion`, and stops short only at one of the two or at the head. */
  ghost predicate IsWindow<E>(events: seq<E>, fromVersion: nat, toVersion: Option<nat>, limit: nat, page: seq<E>) {
    && |page| <= limit
    && (forall k :: 0 <= k < |page| ==> fromVersion + k < |events| && page[k] == events[fromVersion + k])
    && (toVersion.Some? && |page| > 0 ==> fromVersion + |page| <= toVersion.value)
    && (|page| < limit ==>
          fromVersion + |page| >= |events| || (toVersion.Some? && fromVersion + |page| >= toVersion.value))
  }

  /** A page is the window of its stream, with the head; an unknown stream gives the empty answer. */
  lemma PageIsWindow<E>(s: Streams<E>, stream: Address, fromVersion: nat, toVersion: Option<nat>, limit: nat)
    ensures var page := ReadStream(s, stream, fromVersion, toVersion, limit);
            if s.Has(stream) then
              page.exists_ && page.lastVersion == |s.entries[stream]|
              && IsWindow(s.entries[stream], fromVersion, toVersion, limit, page.events)
            else page == Page(false, 0, [])
  {
  }

  lemma {:induction false} TotalSame<E>(order: seq<Address>, before: map<Address, seq<E>>, after: map<Address, seq<E>>)
    requires forall i :: 0 <= i < |order| ==>
            order[i] in before && order[i] in after && after[order[i]] == before[order[i]]
    ensures Total(order, after) == Total(order, before)
  {
    if |order| > 0 {
      TotalSame(order[..|order| - 1], before, after);
    }
  }

  lemma {:induction false} TotalUpdate<E>(order: seq<Address>, entries: map<Address, seq<E>>, a: Address,
                                          events: seq<E>)
    requires Distinct(order) && a in order && forall i :: 0 <= i < |order| ==> order[i] in entries
    ensures Total(order, entries[a := events]) == Total(order, entries) - |entries[a]| + |events|
  {
    var n := |order| - 1;
    if order[n] == a {
      TotalSame(order[..n], entries, entries[a := events]);
    } else {
      assert a in order[..n];
      TotalUpdate(order[..n], entries, a, events);
    }
  }

  lemma TotalOfNew<E>(order: seq<Address>, entries: map<Address, seq<E>>, a: Address, events: seq<E>)
    requires a !in order && forall i :: 0 <= i < |order| ==> order[i] in entries
    ensures Total(order + [a], entries[a := events]) == Total(order, entries) + |events|
  {
    assert (order + [a])[..|order|] == order;
    TotalSame(order, entries, entries[a := events]);
  }

  lemma OrderFacts<E(!new)>(s: Streams<E>)
    requires s.Valid()
    ensures Distinct(s.order) && (forall i :: 0 <= i < |s.order| ==> s.order[i] in s.entries)
    ensures forall a :: a in s.order <==> s.Has(a)
  {
  }

  /** The event total after one stream gains events. */
  lemma TotalGrows<E(!new)>(s: Streams<E>, a: Address, more: seq<E>)
    requires Distinct(s.order) && (a in s.order <==> s.Has(a))
    requires forall i :: 0 <= i < |s.order| ==> s.order[i] in s.entries
    ensures var s' := s.Set(a, EventsOf(s, a) + more);
            && (forall i :: 0 <= i < |s'.order| ==> s'.order[i] in s'.entries)
            && Total(s'.order, s'.entries) == Total(s.order, s.entries) + |more|
  {
    hide Distinct, Total;
    if s.Has(a) {
      TotalUpdate(s.order, s.entries, a, EventsOf(s, a) + more);
    } else {
      TotalOfNew(s.order, s.entries, a, EventsOf(s, a) + more);
    }
  }

  ghost predicate NoneEmpty<E>(s: Streams<E>) {
    forall a :: a in s.entries ==> |s.entries[a]| > 0
  }

  /** The count counts every stored event. */
  ghost predicate Counts<E>(s: Streams<E>, total: nat) {
    s.Valid() && total == Total(s.order, s.entries)
  }

  predicate WithinCapacity(c: Capacity, streams: nat, events: nat) {
    && (c.maxStreams.Some? ==> streams <= c.maxStreams.value)
    && (c.maxEvents.Some? ==> events <= c.maxEvents.value)
  }

  /** What the store knows of itself: the count, no empty stream, the limits. */
  ghost predicate Consistent<E>(c: Capacity, s: Streams<E>, total: nat) {
    Counts(s, total) && NoneEmpty(s) && WithinCapacity(c, s.Size(), total)
  }

  lemma CountsGrows<E(!new)>(s: Streams<E>, total: nat, a: Address, more: seq<E>)
    requires Counts(s, total)
    ensures Counts(s.Set(a, EventsOf(s, a) + more), total + |more|)
    ensures s.Set(a, EventsOf(s, a) + more).Size() == if s.Has(a) then s.Size() else s.Size() + 1
  {
    SetValid(s, a, EventsOf(s, a) + more);
    OrderFacts(s);
    TotalGrows(s, a, more);
    hide Total;
  }

  lemma NoneEmptyGrows<E(!new)>(s: Streams<E>, a: Address, events: seq<E>)
    requires NoneEmpty(s) && |events| > 0
    ensures NoneEmpty(s.Set(a, events))
  {
  }

  lemma AppendedShape<E>(c: Capacity, s: Streams<E>, total: nat, r: AppendRequest<E>)
    requires |r.events| > 0 && Append(c, s, total, r).Ok?
    ensures Append(c, s, total, r).value == s.Set(r.stream, EventsOf(s, r.stream) + r.events)
    ensures !s.Has(r.stream) && c.maxStreams.Some? ==> s.Size() < c.maxStreams.value
    ensures c.maxEvents.Some? ==> total + |r.events| <= c.maxEvents.value
  {
  }

  lemma AppendKeepsConsistent<E(!new)>(c: Capacity, s: Streams<E>, total: nat, r: AppendRequest<E>)
    requires Consistent(c, s, total) && |r.events| > 0 && Append(c, s, total, r).Ok?
    ensures Consistent(c, Append(c, s, total, r).value, total + |r.events|)
  {
    AppendedShape(c, s, total, r);
    hide Append, Counts, NoneEmpty;
    CountsGrows(s, total, r.stream, r.events);
    NoneEmptyGrows(s, r.stream, EventsOf(s, r.stream) + r.events);
    hide EventsOf;
  }

  lemma PushStart<E(!new)>(s: Streams<E>, a: Address)
    ensures (if s.Has(a) then s else s.Set(a, [])) == s.Set(a, EventsOf(s, a) + [])
  {
    if s.Has(a) {
      assert EventsOf(s, a) + [] == s.entries[a];
      assert s.entries[a := s.entries[a]] == s.entries;
    }
  }

  lemma PushNext<E(!new)>(s: Streams<E>, a: Address, events: seq<E>, i: nat)
    requires i < |events|
    ensures var now := s.Set(a, EventsOf(s, a) + events[..i]);
            now.Has(a) && now.Set(a, now.entries[a] + [events[i]]) == s.Set(a, EventsOf(s, a) + events[..i + 1])
  {
    assert EventsOf(s, a) + events[..i + 1] == EventsOf(s, a) + events[..i] + [events[i]];
  }

  class InMemoryEventStore<!E(!new)> {
    var streams: Streams<E>
    var totalEvents: nat
    const capacity: Capacity

    ghost predicate Valid()
      reads this
    {
      Consistent(capacity, streams, totalEvents)
    }

    constructor (capacity: Capacity)
      requires capacity.maxStreams.Some? ==> 0 < capacity.maxStreams.value
      requires capacity.maxEvents.Some? ==> 0 < capacity.maxEvents.value
      ensures Valid() && streams == Empty() && this.capacity == capacity
    {
      this.capacity := capacity;
      this.streams := Empty();
      this.totalEvents := 0;
    }

    method AppendEvents(r: AppendRequest<E>) returns (error: Option<AppendError>)
      requires Valid()
      modifies this
      ensures Valid()
      ensures var outcome := Append(capacity, old(streams), old(totalEvents), r);
              if outcome.Ok? then error.None? && streams == outcome.value
              else error == Some(outcome.error) && streams == old(streams)
      ensures Extended(old(streams), streams)
      ensures error.None? <==>
              |r.events| == 0
              || (|EventsOf(old(streams), r.stream)| == r.expectedVersion
                  && HasRoomFor(capacity, old(streams), old(totalEvents), r))
      ensures EventsOf(streams, r.stream)
           == EventsOf(old(streams), r.stream) + if error.None? then r.events else []
      ensures forall a :: a != r.stream ==> EventsOf(streams, a) == EventsOf(old(streams), a)
    {
      if |r.events| > 0 {
        AppendAcceptsIff(capacity, streams, totalEvents, r);
      }
      hide Consistent, Extended, Total;
      ghost var outcome := Append(capacity, streams, totalEvents, r);
      if outcome.Ok? {
        AppendExtends(capacity, streams, totalEvents, r);
        if |r.events| > 0 {
          AppendKeepsConsistent(capacity, streams, totalEvents, r);
        }
      }
      ExtendedReflexive(streams);
      if |r.events| == 0 {
        return None;
      }
      var isNew := !streams.Has(r.stream);
      var length := |EventsOf(streams, r.stream)|;
      if length != r.expectedVersion {
        return Some(ConcurrencyConflict(r.expectedVersion, length));
      }
      if isNew && capacity.maxStreams.Some? && streams.Size() >= capacity.maxStreams.value {
        return Some(StreamCapacity);
      }
      if capacity.maxEvents.Some? && totalEvents + |r.events| > capacity.maxEvents.value {
        return Some(EventCapacity);
      }
      PushEach(r.stream, r.events);
      totalEvents := totalEvents + |r.events|;
      return None;
    }

    /** Creates the stream if need be and pushes the events one by one. */
    method PushEach(stream: Address, events: seq<E>)
      requires |events| > 0
      modifies this`streams
      ensures streams == old(streams).Set(stream, EventsOf(old(streams), stream) + events)
    {
      ghost var before := streams;
      if !streams.Has(stream) {
        streams := streams.Set(stream, []);
      }
      PushStart(before, stream);
      assert events[..0] == [];
      for i := 0 to |events|
        invariant streams == before.Set(stream, EventsOf(before, stream) + events[..i])
      {
        PushNext(before, stream, events, i);
        streams := streams.Set(stream, streams.entries[stream] + [events[i]]);
      }
      assert events[..|events|] == events;
    }

    /** One page; None is the RangeError of a limit that is not positive or a negative position. */
    method ReadPage(stream: Address, fromVersion: int, toVersion: Option<int>, limit: int)
      returns (page: Option<Page<E>>)
      ensures page.None? <==> limit < 1 || fromVersion < 0 || (toVersion.Some? && toVersion.value < 0)
      ensures page.Some? ==> page.value == ReadStream(streams, stream, fromVersion, toVersion, limit)
      ensures page.Some? && !streams.Has(stream) ==> page.value == Page(false, 0, [])
      ensures page.Some? && streams.Has(stream) ==>
                page.value.exists_ && page.value.lastVersion == |streams.entries[stream]|
                && IsWindow(streams.entries[stream], fromVersion, toVersion, limit, page.value.events)
    {
      if limit < 1 || fromVersion < 0 || (toVersion.Some? && toVersion.value < 0) {
        return None;
      }
      if !streams.Has(stream) {
        return Some(Page(false, 0, []));
      }
      var events := streams.entries[stream];
      var pageEnd := fromVersion + limit;
      if toVersion.Some? && toVersion.value < pageEnd {
        pageEnd := toVersion.value;
      }
      if |events| < pageEnd {
        pageEnd := |events|;
      }
      return Some(Page(true, |events|, if fromVersion <= pageEnd then events[fromVersion..pageEnd] else []));
    }
  }
}
