/** The in-memory checkpoint store: one receipt per projection and address, counted against
    an optional limit. The source nests two maps; the model keys one map by the pair. */
module CheckpointStores {
  import opened Common
  import opened Projections

  datatype Key = Key(projection: string, address: Address)

  function Lookup(c: Checkpoints, a: Address): Option<Checkpoint> {
    if a in c then Some(c[a]) else None
  }

  /** The receipts of one projection, by address. */
  function ReceiptsOf(m: map<Key, Checkpoint>, projection: string): (c: Checkpoints)
    ensures forall a :: a in c <==> Key(projection, a) in m
    ensures forall a :: a in c ==> c[a] == m[Key(projection, a)]
  {
    map k | k in m && k.projection == projection :: k.address := m[k]
  }

  lemma ForgetsOne(m: map<Key, Checkpoint>, projection: string, gone: set<Key>)
    requires gone == set k | k in m && k.projection == projection
    ensures ReceiptsOf(m - gone, projection) == map[]
    ensures forall other :: other != projection ==> ReceiptsOf(m - gone, other) == ReceiptsOf(m, other)
  {
    hide ReceiptsOf;
    forall a ensures a !in ReceiptsOf(m - gone, projection) {
      assert Key(projection, a) !in m - gone;
    }
    forall other | other != projection ensures ReceiptsOf(m - gone, other) == ReceiptsOf(m, other) {
      assert forall a :: Key(other, a) in m - gone <==> Key(other, a) in m;
    }
  }

  lemma RemovedCount(m: map<Key, Checkpoint>, gone: set<Key>)
    requires gone <= m.Keys
    ensures |m - gone| == |m| - |gone|
  {
    assert (m - gone).Keys == m.Keys - gone;
    assert |m| == |m.Keys| && |m - gone| == |(m - gone).Keys|;
  }

  class InMemoryProjectionCheckpointStore {
    var checkpoints: map<Key, Checkpoint>
    var checkpointCount: nat
    const maxCheckpoints: Option<nat>

    /** The counter is the number of stored receipts and never passes the limit. */
    ghost predicate Valid()
      reads this
    {
      && checkpointCount == |checkpoints|
      && (maxCheckpoints.Some? ==> 0 < maxCheckpoints.value && checkpointCount <= maxCheckpoints.value)
    }

    /** The receipts of one projection. */
    ghost function Of(projection: string): (c: Checkpoints)
      reads this
      ensures forall a :: a in c <==> Key(projection, a) in checkpoints
      ensures forall a :: a in c ==> c[a] == checkpoints[Key(projection, a)]
    {
      ReceiptsOf(checkpoints, projection)
    }

    constructor (maxCheckpoints: Option<nat>)
      requires maxCheckpoints.Some? ==> 0 < maxCheckpoints.value
      ensures Valid() && checkpoints == map[] && this.maxCheckpoints == maxCheckpoints
    {
      this.checkpoints := map[];
      this.checkpointCount := 0;
      this.maxCheckpoints := maxCheckpoints;
    }

    method Load(projection: string, address: Address) returns (c: Option<Checkpoint>)
      ensures c == Lookup(Of(projection), address)
    {
      var key := Key(projection, address);
      c := if key in checkpoints then Some(checkpoints[key]) else None;
    }

    /** Overwrites a present receipt; a new one is refused at the limit, before any change. */
    method Save(projection: string, address: Address, checkpoint: Checkpoint) returns (saved: bool)
      requires Valid()
      modifies this`checkpoints, this`checkpointCount
      ensures Valid()
      ensures saved <==> (Key(projection, address) in old(checkpoints) || maxCheckpoints.None?
                          || |old(checkpoints)| < maxCheckpoints.value)
      ensures checkpoints ==
              if saved then old(checkpoints)[Key(projection, address) := checkpoint] else old(checkpoints)
    {
      var key := Key(projection, address);
      var isNewCheckpoint := key !in checkpoints;
      if isNewCheckpoint && maxCheckpoints.Some? && checkpointCount >= maxCheckpoints.value {
        return false;
      }
      checkpoints := checkpoints[key := checkpoint];
      if isNewCheckpoint {
        checkpointCount := checkpointCount + 1;
      }
      return true;
    }

    /** At or past the position. */
    method HasReached(projection: string, address: Address, position: Position) returns (reached: bool)
      ensures reached <==> address in Of(projection) && !IsPositionAfter(position, Of(projection)[address].position)
    {
      var key := Key(projection, address);
      if key !in checkpoints {
        return false;
      }
      return !IsPositionAfter(position, checkpoints[key].position);
    }

    /** Forgets one projection and leaves every other one untouched. */
    method Reset(projection: string)
      requires Valid()
      modifies this`checkpoints, this`checkpointCount
      ensures Valid()
      ensures Of(projection) == map[]
      ensures forall other :: other != projection ==> Of(other) == old(Of(other))
    {
      var gone := set k | k in checkpoints && k.projection == projection;
      RemovedCount(checkpoints, gone);
      ForgetsOne(checkpoints, projection, gone);
      hide ReceiptsOf;
      checkpointCount := checkpointCount - |gone|;
      checkpoints := checkpoints - gone;
    }

    /** Puts back what a rolled-back transaction had replaced. */
    method Restore(before: map<Key, Checkpoint>, count: nat)
      modifies this`checkpoints, this`checkpointCount
      ensures checkpoints == before && checkpointCount == count
    {
      checkpoints := before;
      checkpointCount := count;
    }
  }
}
