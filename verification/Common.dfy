/** Types shared by the delivery pipeline: options, results, aggregate addresses,
    domain events and commit positions. */
module Common {

  datatype Option<+T> = None | Some(value: T)

  /** A call that may throw: the thrown error is a value of type E. */
  datatype Result<+T, +E> = Ok(value: T) | Err(error: E)

  /** How a storage call fares: it returns, or it fails with or without having taken effect. */
  datatype StorageCall = Succeeds | FailsApplied | FailsUnapplied

  /** Qualified address of one aggregate. The source keys its maps by an injective
      string encoding of this pair; the model keys them by the pair itself. */
  datatype Address = Address(aggregateType: string, aggregateId: string)

  /** A domain event. A missing event id is the empty string: the source treats both alike. */
  datatype Event = Event(
    eventId: string,
    aggregateId: Option<string>,
    aggregateType: Option<string>,
    payload: string)

  /** Commit facts known before the outbox links the commit to its predecessor. */
  datatype CandidatePosition = CandidatePosition(
    aggregateVersion: int,
    commitSequence: int,
    commitSize: int)

  /** A finalised cursor position. `previous` is None at genesis. A field that is missing
      or is not an integer in the source's dynamic value is -1 here; both are invalid. */
  datatype Position = Position(
    aggregateVersion: int,
    commitSequence: int,
    commitSize: int,
    previous: Option<int>)

  function Unlinked(p: Position): CandidatePosition {
    CandidatePosition(p.aggregateVersion, p.commitSequence, p.commitSize)
  }

  predicate IsValidPosition(p: Position) {
    && 0 <= p.aggregateVersion
    && 0 <= p.commitSequence < p.commitSize
    && (p.previous.None? || 0 <= p.previous.value < p.aggregateVersion)
  }

  /** Strictly after, in the per-aggregate order (version, then commit sequence). */
  predicate IsPositionAfter(candidate: Position, reference: Position) {
    if candidate.aggregateVersion != reference.aggregateVersion
    then candidate.aggregateVersion > reference.aggregateVersion
    else candidate.commitSequence > reference.commitSequence
  }

  predicate IsSameOrderedPosition(left: Position, right: Position) {
    left.aggregateVersion == right.aggregateVersion && left.commitSequence == right.commitSequence
  }

  predicate IsSamePositionReceipt(left: Position, right: Position) {
    && IsSameOrderedPosition(left, right)
    && left.commitSize == right.commitSize
    && left.previous == right.previous
  }

  /** A subset is no larger, and a proper one is smaller. */
  lemma SubsetCount<T>(a: set<T>, b: set<T>)
    requires a <= b
    ensures |a| <= |b| && (|a| == |b| <==> a == b)
  {
    assert b == a + (b - a);
    assert b - a == {} ==> a == b;
  }
}
