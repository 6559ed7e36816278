/** The projector's cursor rules as pure functions: envelope validation, the four batch
    checks, and the advance of the per-address watermarks. */
module Projections {
  import opened Common

  datatype Envelope = Envelope(event: Event, source: Option<Address>, position: Option<Position>)

  /** A validated envelope. */
  datatype Item = Item(event: Event, position: Position, address: Address)

  /** Durable receipt of the last event applied for one address. */
  datatype Checkpoint = Checkpoint(position: Position, lastAppliedEventId: string)

  type Checkpoints = map<Address, Checkpoint>

  datatype ProjectError =
    | Unprojectable
    | ForeignEvent
    | IdentityViolation
    | ReceiptViolation
    | OrderViolation
    | Gap
    | HandlerThrew
    | CapacityExceeded

  // ---- one envelope ----

  function ToItem(e: Envelope): Result<Item, ProjectError> {
    if e.event.eventId == "" then Err(Unprojectable)
    else if e.position.None? then Err(Unprojectable)
    else if !IsValidPosition(e.position.value) then Err(Unprojectable)
    else if e.source.None? then Err(Unprojectable)
    else if e.source.value.aggregateId == "" || e.source.value.aggregateType == "" then Err(Unprojectable)
    else if ContradictsSource(e.event, e.source.value) then Err(ForeignEvent)
    else Ok(Item(e.event, e.position.value, e.source.value))
  }

  predicate ContradictsSource(event: Event, source: Address) {
    || (event.aggregateId.Some? && event.aggregateId.value != source.aggregateId)
    || (event.aggregateType.Some? && event.aggregateType.value != source.aggregateType)
  }

  /** The envelope an item travels in. */
  function ToEnvelope(i: Item): Envelope {
    Envelope(i.event, Some(i.address), Some(i.position))
  }

  predicate IsProjectable(i: Item) {
    ToItem(ToEnvelope(i)) == Ok(i)
  }

  /** All envelopes validated in order; the first bad one decides the error. */
  function ToItems(es: seq<Envelope>): (r: Result<seq<Item>, ProjectError>)
    ensures r.Ok? ==> |r.value| == |es|
    ensures r.Ok? ==> forall i :: 0 <= i < |es| ==> ToItem(es[i]) == Ok(r.value[i])
    ensures r.Err? ==> exists i :: 0 <= i < |es| && ToItem(es[i]) == Err(r.error)
  {
    if |es| == 0 then Ok([]) else
    var init := ToItems(es[..|es| - 1]);
    if init.Err? then Err(init.error) else
    var last := ToItem(es[|es| - 1]);
    if last.Err? then Err(last.error) else Ok(init.value + [last.value])
  }

  // ---- batch checks ----

  predicate IsValidCheckpoint(c: Checkpoint) {
    c.lastAppliedEventId != "" && IsValidPosition(c.position)
  }

  predicate IsReadable(c: Checkpoints, i: Item) {
    i.address in c ==> IsValidCheckpoint(c[i.address])
  }

  /** The watermark pass: an item exactly at its stored watermark must be the stored receipt. */
  function WatermarkProblem(c: Checkpoints, i: Item): Option<ProjectError> {
    if i.address in c && IsSameOrderedPosition(i.position, c[i.address].position) then
      if i.event.eventId != c[i.address].lastAppliedEventId then Some(IdentityViolation)
      else if !IsSamePositionReceipt(i.position, c[i.address].position) then Some(ReceiptViolation)
      else None
    else None
  }

  /** Two items name the same qualified position. */
  predicate SameKey(a: Item, b: Item) {
    a.address == b.address && IsSameOrderedPosition(a.position, b.position)
  }

  predicate SameReceipt(a: Item, b: Item) {
    a.event.eventId == b.event.eventId && a.address == b.address && IsSamePositionReceipt(a.position, b.position)
  }

  ghost predicate Readable(c: Checkpoints, items: seq<Item>) {
    forall i :: 0 <= i < |items| ==> IsReadable(c, items[i])
  }

  ghost predicate MatchesWatermarks(c: Checkpoints, items: seq<Item>) {
    forall i :: 0 <= i < |items| ==> WatermarkProblem(c, items[i]).None?
  }

  /** One position in a batch is one immutable receipt. */
  ghost predicate ConsistentReceipts(items: seq<Item>) {
    forall i, j :: 0 <= i < j < |items| && SameKey(items[i], items[j]) ==> SameReceipt(items[i], items[j])
  }

  /** At or behind the watermark. */
  predicate Skips(c: Checkpoints, i: Item) {
    i.address in c && !IsPositionAfter(i.position, c[i.address].position)
  }

  ghost predicate FirstOfItsKey(items: seq<Item>, j: nat)
    requires j < |items|
  {
    forall k :: 0 <= k < j ==> !SameKey(items[k], items[j])
  }

  /** No item unseen at batch start comes after a greater unseen position, repeats aside. */
  ghost predicate InOrder(c: Checkpoints, items: seq<Item>) {
    forall i, j :: 0 <= i < j < |items| && FirstOfItsKey(items, j) && !Skips(c, items[i]) && !Skips(c, items[j])
                   && items[i].address == items[j].address
                   ==> !IsPositionAfter(items[i].position, items[j].position)
  }

  predicate IsContiguous(candidate: Position, watermark: Option<Position>) {
    if candidate.commitSize < 1 || candidate.commitSequence < 0 || candidate.commitSequence >= candidate.commitSize then
      false
    else if watermark.None? then
      candidate.commitSequence == 0 && candidate.previous.None?
    else if candidate.aggregateVersion == watermark.value.aggregateVersion then
      && candidate.previous == watermark.value.previous
      && candidate.commitSize == watermark.value.commitSize
      && candidate.commitSequence == watermark.value.commitSequence + 1
    else
      && watermark.value.commitSequence == watermark.value.commitSize - 1
      && candidate.commitSequence == 0
      && candidate.previous == Some(watermark.value.aggregateVersion)
  }

  function Watermark(c: Checkpoints, a: Address): Option<Position> {
    if a in c then Some(c[a].position) else None
  }

  /** The item is the next one its address may apply. */
  predicate Extends(c: Checkpoints, i: Item) {
    !Skips(c, i) && IsContiguous(i.position, Watermark(c, i.address))
  }

  function Apply(c: Checkpoints, i: Item): Checkpoints {
    c[i.address := Checkpoint(i.position, i.event.eventId)]
  }

  // ---- the advance ----

  datatype Advance =
    | Gapped
    | Advanced(checkpoints: Checkpoints, applied: seq<Item>, skipped: nat)

  function AdvanceOne(r: Advance, i: Item): Advance {
    if r.Gapped? then Gapped
    else if Skips(r.checkpoints, i) then r.(skipped := r.skipped + 1)
    else if !IsContiguous(i.position, Watermark(r.checkpoints, i.address)) then Gapped
    else Advanced(Apply(r.checkpoints, i), r.applied + [i], r.skipped)
  }

  /** The contiguity pass over the whole batch, starting from the stored checkpoints. */
  function AdvanceAll(c: Checkpoints, items: seq<Item>): Advance {
    if |items| == 0 then Advanced(c, [], 0)
    else AdvanceOne(AdvanceAll(c, items[..|items| - 1]), items[|items| - 1])
  }

  /** The validated batch passes the load check and all four passes. */
  ghost predicate Accepts(c: Checkpoints, items: seq<Item>) {
    && (forall i :: 0 <= i < |items| ==> IsProjectable(items[i]))
    && Readable(c, items)
    && MatchesWatermarks(c, items)
    && ConsistentReceipts(items)
    && InOrder(c, items)
    && AdvanceAll(c, items).Advanced?
  }

}
