/** What the projector's validation refuses, in the fields of envelopes, items and checkpoints
    alone, and when a batch is accepted that its records one by one are. */
module ProjectionVerdicts {
  import opened Common
  import opened Projections

  // ---- one envelope ----

  /** No usable cursor: no event id, no position, an impossible position, or no full source. */
  ghost predicate IsMalformed(e: Envelope) {
    || e.event.eventId == ""
    || e.source.None? || e.source.value.aggregateId == "" || e.source.value.aggregateType == ""
    || e.position.None?
    || e.position.value.aggregateVersion < 0
    || e.position.value.commitSequence < 0
    || e.position.value.commitSize <= e.position.value.commitSequence
    || (e.position.value.previous.Some?
        && (e.position.value.previous.value < 0
            || e.position.value.previous.value >= e.position.value.aggregateVersion))
  }

  /** The event names another aggregate than the envelope it travels in. */
  ghost predicate IsForeign(e: Envelope) {
    && e.source.Some?
    && (e.event.aggregateId !in {None, Some(e.source.value.aggregateId)}
        || e.event.aggregateType !in {None, Some(e.source.value.aggregateType)})
  }

  ghost predicate FirstBad(es: seq<Envelope>, n: nat) {
    && n < |es|
    && (IsMalformed(es[n]) || IsForeign(es[n]))
    && forall k :: 0 <= k < n ==> !IsMalformed(es[k]) && !IsForeign(es[k])
  }

  lemma EnvelopeVerdict(e: Envelope)
    ensures ToItem(e) == if IsMalformed(e) then Err(Unprojectable)
                         else if IsForeign(e) then Err(ForeignEvent)
                         else Ok(Item(e.event, e.position.value, e.source.value))
  {
  }

  /** A batch of envelopes is let through exactly when none is bad; the first bad one decides. */
  lemma {:induction false} EnvelopesVerdict(es: seq<Envelope>)
    ensures ToItems(es).Ok? <==> forall k :: 0 <= k < |es| ==> !IsMalformed(es[k]) && !IsForeign(es[k])
    ensures forall n: nat :: FirstBad(es, n) ==>
              ToItems(es) == Err(if IsMalformed(es[n]) then Unprojectable else ForeignEvent)
  {
    if |es| > 0 {
      var last := |es| - 1;
      EnvelopesVerdict(es[..last]);
      EnvelopeVerdict(es[last]);
      forall n: nat | FirstBad(es, n)
        ensures ToItems(es) == Err(if IsMalformed(es[n]) then Unprojectable else ForeignEvent) {
        assert n < last ==> FirstBad(es[..last], n);
      }
    }
  }

  // ---- receipts at the stored watermark ----

  /** The item stands exactly at the stored position of its address and is not what is stored there. */
  ghost predicate ContradictsStored(c: Checkpoints, i: Item) {
    && i.address in c
    && i.position.aggregateVersion == c[i.address].position.aggregateVersion
    && i.position.commitSequence == c[i.address].position.commitSequence
    && (i.event.eventId != c[i.address].lastAppliedEventId
        || i.position.commitSize != c[i.address].position.commitSize
        || i.position.previous != c[i.address].position.previous)
  }

  ghost predicate FirstContradiction(c: Checkpoints, items: seq<Item>, n: nat) {
    && n < |items| && ContradictsStored(c, items[n])
    && forall k :: 0 <= k < n ==> !ContradictsStored(c, items[k])
  }

  lemma WatermarkVerdict(c: Checkpoints, i: Item)
    ensures WatermarkProblem(c, i)
         == if !ContradictsStored(c, i) then None
            else if i.event.eventId != c[i.address].lastAppliedEventId then Some(IdentityViolation)
            else Some(ReceiptViolation)
  {
  }

  /** An item of an accepted batch at the stored version and sequence of its address is the stored
      event, with the stored commit size and predecessor. */
  lemma AcceptedMatchesWatermark(c: Checkpoints, items: seq<Item>, n: nat)
    requires Accepts(c, items) && n < |items| && items[n].address in c
    requires items[n].position.aggregateVersion == c[items[n].address].position.aggregateVersion
    requires items[n].position.commitSequence == c[items[n].address].position.commitSequence
    ensures items[n].event.eventId == c[items[n].address].lastAppliedEventId
    ensures items[n].position == c[items[n].address].position
  {
    assert WatermarkProblem(c, items[n]).None?;
  }

  // ---- receipts within a batch ----

  /** Two items at one position of one address that are not the same event in the same commit. */
  ghost predicate Conflict(a: Item, b: Item) {
    && a.address == b.address
    && a.position.aggregateVersion == b.position.aggregateVersion
    && a.position.commitSequence == b.position.commitSequence
    && (a.event.eventId != b.event.eventId
        || a.position.commitSize != b.position.commitSize
        || a.position.previous != b.position.previous)
  }

  /** Item n is the first that conflicts with an earlier one, and k is such an earlier one. */
  ghost predicate FirstConflict(items: seq<Item>, k: nat, n: nat) {
    && k < n < |items| && Conflict(items[k], items[n])
    && forall i, j :: 0 <= i < j < n ==> !Conflict(items[i], items[j])
  }

  lemma ConflictVerdict(a: Item, b: Item)
    ensures SameKey(a, b) && !SameReceipt(a, b) <==> Conflict(a, b)
  {
  }

  lemma ConsistentIffNoConflict(items: seq<Item>)
    ensures ConsistentReceipts(items) <==> forall i, j :: 0 <= i < j < |items| ==> !Conflict(items[i], items[j])
  {
    if ConsistentReceipts(items) {
      forall i, j | 0 <= i < j < |items| ensures !Conflict(items[i], items[j]) {
        ConflictVerdict(items[i], items[j]);
      }
    }
    if forall i, j :: 0 <= i < j < |items| ==> !Conflict(items[i], items[j]) {
      forall i, j | 0 <= i < j < |items| && SameKey(items[i], items[j]) ensures SameReceipt(items[i], items[j]) {
        ConflictVerdict(items[i], items[j]);
      }
    }
  }

  /** Two items of an accepted batch at one version and sequence of one address are the same event
      at the same position. */
  lemma AcceptedRepeatsReceipt(c: Checkpoints, items: seq<Item>, m: nat, n: nat)
    requires Accepts(c, items) && m < n < |items| && items[m].address == items[n].address
    requires items[m].position.aggregateVersion == items[n].position.aggregateVersion
    requires items[m].position.commitSequence == items[n].position.commitSequence
    ensures items[m].event.eventId == items[n].event.eventId && items[m].position == items[n].position
  {
    assert SameKey(items[m], items[n]);
    assert SameReceipt(items[m], items[n]);
  }

  // ---- which error ----

  /** Some item contradicts its stored receipt exactly when there is an error; the first decides it. */
  ghost predicate WatermarksDecide(c: Checkpoints, items: seq<Item>, error: Option<ProjectError>) {
    && (error.None? <==> forall i :: 0 <= i < |items| ==> !ContradictsStored(c, items[i]))
    && forall n: nat :: FirstContradiction(c, items, n) ==>
         error == Some(if items[n].event.eventId != c[items[n].address].lastAppliedEventId
                       then IdentityViolation else ReceiptViolation)
  }

  /** Two items conflict exactly when there is an error; the first in conflict decides it. */
  ghost predicate ConflictsDecide(items: seq<Item>, error: Option<ProjectError>) {
    && (error.None? <==> forall i, j :: 0 <= i < j < |items| ==> !Conflict(items[i], items[j]))
    && forall k: nat, n: nat :: FirstConflict(items, k, n) ==>
         error == Some(if items[n].event.eventId != items[k].event.eventId
                       then IdentityViolation else ReceiptViolation)
  }

  /** Of a batch with readable checkpoints the first item that contradicts its stored receipt decides
      the error; without one, the first that conflicts with an earlier item does. */
  ghost predicate ReceiptsDecide(c: Checkpoints, items: seq<Item>, error: Option<ProjectError>) {
    && (forall n: nat :: FirstContradiction(c, items, n) ==>
          error == Some(if items[n].event.eventId != c[items[n].address].lastAppliedEventId
                        then IdentityViolation else ReceiptViolation))
    && ((forall i :: 0 <= i < |items| ==> !ContradictsStored(c, items[i])) ==>
          forall k: nat, n: nat :: FirstConflict(items, k, n) ==>
            error == Some(if items[n].event.eventId != items[k].event.eventId
                          then IdentityViolation else ReceiptViolation))
  }

  lemma WatermarksFirst(c: Checkpoints, items: seq<Item>, error: Option<ProjectError>)
    requires WatermarksDecide(c, items, error) && error.Some?
    ensures ReceiptsDecide(c, items, error)
  {
    hide FirstContradiction, FirstConflict, ContradictsStored;
  }

  lemma ConflictsNext(c: Checkpoints, items: seq<Item>, error: Option<ProjectError>)
    requires WatermarksDecide(c, items, None) && ConflictsDecide(items, error)
    ensures ReceiptsDecide(c, items, error)
  {
    hide FirstConflict;
  }

  lemma NothingToDecide(c: Checkpoints, items: seq<Item>, later: Option<ProjectError>)
    requires WatermarksDecide(c, items, None) && ConflictsDecide(items, None)
    ensures ReceiptsDecide(c, items, later)
  {
  }

  lemma AcceptedDecidesNothing(c: Checkpoints, items: seq<Item>, error: Option<ProjectError>)
    requires Accepts(c, items)
    ensures ReceiptsDecide(c, items, error)
  {
    forall n: nat | n < |items| ensures !ContradictsStored(c, items[n]) {
      WatermarkVerdict(c, items[n]);
    }
    ConsistentIffNoConflict(items);
  }
}
