/** Concurrent `project` calls interleaving their loads and commits under the checkpoint locks: the
    outcome is that of the same calls run one after the other, in the order they committed. */
module ConcurrentProjections {
  import opened Common
  import opened StringOrder
  import opened Projections
  import CheckpointLocks

  /** One call: its validated batch, what it loaded so far, and whether its transaction ended. */
  datatype Call = Call(items: seq<Item>, loaded: map<Address, Option<Checkpoint>>, ended: bool)

  /** `calls` runs parallel to the clients of the lock machine. `ended` lists the calls whose
      transactions ended, in order, with whether a handler threw. */
  datatype System = System(
    locks: CheckpointLocks.Locks,
    calls: seq<Call>,
    checkpoints: Checkpoints,
    log: seq<Item>,
    ended: seq<(seq<Item>, bool)>)

  datatype Move =
    | Open(items: seq<Item>)
    | Lock(step: CheckpointLocks.Step)
    | Load(id: nat, address: Address)
    | End(id: nat, throws: bool)

  const START := System(CheckpointLocks.IDLE, [], map[], [], [])

  /** Lock keys are injective encodings of addresses. */
  ghost predicate Injective(encode: Address -> string) {
    forall a, b :: encode(a) == encode(b) ==> a == b
  }

  function KeysOf(encode: Address -> string, items: seq<Item>): (keys: seq<string>)
    ensures |keys| == |items| && forall i :: 0 <= i < |keys| ==> keys[i] == encode(items[i].address)
  {
    seq(|items|, i requires 0 <= i < |items| => encode(items[i].address))
  }

  function Present(loaded: map<Address, Option<Checkpoint>>): Checkpoints {
    map a | a in loaded && loaded[a].Some? :: loaded[a].value
  }

  function Stored(c: Checkpoints, a: Address): Option<Checkpoint> {
    if a in c then Some(c[a]) else None
  }

  /** The call is inside its locked work and its transaction is open. */
  predicate IsInside(s: System, id: nat) {
    && id < |s.locks.clients| && id < |s.calls|
    && s.locks.clients[id].phase.Working? && !s.calls[id].ended
  }

  ghost predicate Enabled(s: System, m: Move) {
    match m
    case Open(_) => true
    case Lock(step) => !step.Begin? && CheckpointLocks.Enabled(s.locks, step)
    case Load(id, a) => IsInside(s, id) && exists i :: 0 <= i < |s.calls[id].items| && s.calls[id].items[i].address == a
    case End(id, _) =>
      IsInside(s, id) && forall i :: 0 <= i < |s.calls[id].items| ==> s.calls[id].items[i].address in s.calls[id].loaded
  }

  /** `project` as one step on the stored checkpoints. */
  ghost function Atomic(c: Checkpoints, items: seq<Item>, throws: bool): (Checkpoints, seq<Item>) {
    if !throws && Accepts(c, items) then (AdvanceAll(c, items).checkpoints, AdvanceAll(c, items).applied) else (c, [])
  }

  ghost function Next(encode: Address -> string, s: System, m: Move): System
    requires Enabled(s, m)
  {
    match m
    case Open(items) =>
      s.(locks := CheckpointLocks.Next(s.locks, CheckpointLocks.Begin(KeysOf(encode, items))),
         calls := s.calls + [Call(items, map[], false)])
    case Lock(step) => s.(locks := CheckpointLocks.Next(s.locks, step))
    case Load(id, a) =>
      s.(calls := s.calls[id := s.calls[id].(loaded := s.calls[id].loaded[a := Stored(s.checkpoints, a)])])
    case End(id, throws) =>
      var call := s.calls[id];
      var r := AdvanceAll(Present(call.loaded), call.items);
      var commits := !throws && Accepts(Present(call.loaded), call.items);
      s.(calls := s.calls[id := call.(ended := true)],
         checkpoints := if commits then s.checkpoints + r.checkpoints else s.checkpoints,
         log := if commits then s.log + r.applied else s.log,
         ended := s.ended + [(call.items, throws)])
  }

  /** The ended calls one after the other. */
  ghost function Serial(ended: seq<(seq<Item>, bool)>): (Checkpoints, seq<Item>) {
    if |ended| == 0 then (map[], []) else
    var before := Serial(ended[..|ended| - 1]);
    var r := Atomic(before.0, ended[|ended| - 1].0, ended[|ended| - 1].1);
    (r.0, before.1 + r.1)
  }

  ghost predicate IsRun(encode: Address -> string, moves: seq<Move>)
    decreases |moves|, 0
  {
    |moves| == 0
    || (IsRun(encode, moves[..|moves| - 1]) && Enabled(Run(encode, moves[..|moves| - 1]), moves[|moves| - 1]))
  }

  ghost function Run(encode: Address -> string, moves: seq<Move>): System
    requires IsRun(encode, moves)
    decreases |moves|, 1
  {
    if |moves| == 0 then START else Next(encode, Run(encode, moves[..|moves| - 1]), moves[|moves| - 1])
  }

  // ---- a batch looks only at its own addresses ----

  ghost predicate AgreeOn(c: Checkpoints, d: Checkpoints, items: seq<Item>) {
    forall i :: 0 <= i < |items| ==> Stored(c, items[i].address) == Stored(d, items[i].address)
  }

  /** Both advances do the same; off the batch's addresses each keeps what it had. */
  ghost predicate SameAdvance(c: Checkpoints, d: Checkpoints, items: seq<Item>, n: nat)
    requires n <= |items|
  {
    var r, q := AdvanceAll(c, items[..n]), AdvanceAll(d, items[..n]);
    && (r.Gapped? <==> q.Gapped?)
    && (r.Advanced? ==>
          && r.applied == q.applied && r.skipped == q.skipped && AgreeOn(r.checkpoints, q.checkpoints, items)
          && (forall a :: Foreign(items, a) ==>
              Stored(q.checkpoints, a) == Stored(d, a) && Stored(r.checkpoints, a) == Stored(c, a)))
  }

  ghost predicate Foreign(items: seq<Item>, a: Address) {
    forall i :: 0 <= i < |items| ==> items[i].address != a
  }

  lemma AdvanceOneAgrees(r: Advance, q: Advance, i: Item, items: seq<Item>)
    requires r.Advanced? && q.Advanced? && r.applied == q.applied && r.skipped == q.skipped
    requires AgreeOn(r.checkpoints, q.checkpoints, items) && i in items
    ensures var r', q' := AdvanceOne(r, i), AdvanceOne(q, i);
            && (r'.Gapped? <==> q'.Gapped?)
            && (r'.Advanced? ==>
                  && r'.applied == q'.applied && r'.skipped == q'.skipped
                  && AgreeOn(r'.checkpoints, q'.checkpoints, items)
                  && (forall a :: a != i.address ==>
                        Stored(q'.checkpoints, a) == Stored(q.checkpoints, a)
                        && Stored(r'.checkpoints, a) == Stored(r.checkpoints, a)))
  {
    assert Stored(r.checkpoints, i.address) == Stored(q.checkpoints, i.address);
  }

  lemma {:induction false} AdvanceAgrees(c: Checkpoints, d: Checkpoints, items: seq<Item>, n: nat)
    requires n <= |items| && AgreeOn(c, d, items)
    ensures SameAdvance(c, d, items, n)
  {
    if n > 0 {
      AdvanceAgrees(c, d, items, n - 1);
      assert items[..n][..n - 1] == items[..n - 1] && items[..n][n - 1] == items[n - 1];
      var r, q := AdvanceAll(c, items[..n - 1]), AdvanceAll(d, items[..n - 1]);
      if r.Advanced? {
        hide AdvanceOne, AgreeOn;
        AdvanceOneAgrees(r, q, items[n - 1], items);
      }
    }
  }

  lemma AcceptsAgrees(c: Checkpoints, d: Checkpoints, items: seq<Item>)
    requires AgreeOn(c, d, items)
    ensures Accepts(c, items) <==> Accepts(d, items)
  {
    AdvanceAgrees(c, d, items, |items|);
    assert items[..|items|] == items;
    hide AdvanceAll, IsProjectable, ConsistentReceipts;
    forall i | 0 <= i < |items|
      ensures IsReadable(c, items[i]) <==> IsReadable(d, items[i])
      ensures WatermarkProblem(c, items[i]) == WatermarkProblem(d, items[i])
      ensures Skips(c, items[i]) <==> Skips(d, items[i]) {
      assert Stored(c, items[i].address) == Stored(d, items[i].address);
    }
    hide IsReadable, WatermarkProblem, Skips, AgreeOn;
  }

  /** Writing what a call computed from its loads is what it would have computed on the store. */
  lemma CommitIsAtomic(c: Checkpoints, d: Checkpoints, items: seq<Item>)
    requires AgreeOn(c, d, items) && AdvanceAll(c, items).Advanced? && forall a :: a in c ==> !Foreign(items, a)
    ensures AdvanceAll(d, items).Advanced?
    ensures d + AdvanceAll(c, items).checkpoints == AdvanceAll(d, items).checkpoints
    ensures AdvanceAll(c, items).applied == AdvanceAll(d, items).applied
  {
    AdvanceAgrees(c, d, items, |items|);
    assert items[..|items|] == items;
    KeysGrow(d, items);
    var r, q := AdvanceAll(c, items).checkpoints, AdvanceAll(d, items).checkpoints;
    hide AdvanceAll;
    forall a ensures Stored(d + r, a) == Stored(q, a) {
      if !Foreign(items, a) {
        var i :| 0 <= i < |items| && items[i].address == a;
        assert Stored(r, a) == Stored(q, a);
      }
    }
    SameStored(d + r, q);
  }

  lemma {:induction false} KeysGrow(c: Checkpoints, items: seq<Item>)
    requires AdvanceAll(c, items).Advanced?
    ensures c.Keys <= AdvanceAll(c, items).checkpoints.Keys
  {
    if |items| > 0 {
      KeysGrow(c, items[..|items| - 1]);
    }
  }

  lemma SameStored(c: Checkpoints, d: Checkpoints)
    requires forall a :: Stored(c, a) == Stored(d, a)
    ensures c == d
  {
    forall a ensures a in c <==> a in d {
      assert Stored(c, a) == Stored(d, a);
    }
    forall a | a in c ensures c[a] == d[a] {
      assert Stored(c, a) == Stored(d, a);
    }
  }

  // ---- the invariant ----

  /** The call's lock covers its addresses, and while it is inside, what it loaded is still stored. */
  ghost predicate CallOk(encode: Address -> string, s: System, id: nat)
    requires id < |s.calls| && id < |s.locks.clients|
  {
    var call, client := s.calls[id], s.locks.clients[id];
    && (forall i :: 0 <= i < |call.items| ==> encode(call.items[i].address) in client.keys)
    && (forall a :: a in call.loaded ==> !Foreign(call.items, a))
    && (client.phase.Acquiring? || client.phase.Waiting? ==> call.loaded == map[])
    && (IsInside(s, id) ==> forall a :: a in call.loaded ==> call.loaded[a] == Stored(s.checkpoints, a))
  }

  ghost predicate Inv(encode: Address -> string, s: System) {
    && CheckpointLocks.Inv(s.locks)
    && |s.calls| == |s.locks.clients|
    && (forall id: nat :: id < |s.calls| ==> CallOk(encode, s, id))
    && (s.checkpoints, s.log) == Serial(s.ended)
  }

  lemma OpenKeepsInv(encode: Address -> string, s: System, items: seq<Item>)
    requires Inv(encode, s)
    ensures Inv(encode, Next(encode, s, Open(items)))
  {
    var keys := KeysOf(encode, items);
    SortedKeysSorts(keys);
    CheckpointLocks.StepKeepsInv(s.locks, CheckpointLocks.Begin(keys));
    hide CheckpointLocks.Inv, Serial;
    var s' := Next(encode, s, Open(items));
    forall id: nat | id < |s'.calls| ensures CallOk(encode, s', id) {
      if id < |s.calls| {
        assert CallOk(encode, s, id);
      } else {
        forall i | 0 <= i < |items| ensures encode(items[i].address) in SortedKeys(keys) {
          assert keys[i] in keys;
        }
      }
    }
  }

  /** Lock steps change neither keys, and only before its work does a call enter it. */
  lemma LockKeepsClients(locks: CheckpointLocks.Locks, step: CheckpointLocks.Step, id: nat)
    requires CheckpointLocks.Enabled(locks, step) && !step.Begin? && id < |locks.clients|
    ensures var after := CheckpointLocks.Next(locks, step);
            && |after.clients| == |locks.clients| && after.clients[id].keys == locks.clients[id].keys
            && (after.clients[id].phase.Working? && !locks.clients[id].phase.Working? ==>
                locks.clients[id].phase.Acquiring?)
            && (after.clients[id].phase.Acquiring? || after.clients[id].phase.Waiting? ==>
                  locks.clients[id].phase.Acquiring? || locks.clients[id].phase.Waiting?)
  {
  }

  lemma LockKeepsInv(encode: Address -> string, s: System, step: CheckpointLocks.Step)
    requires Inv(encode, s) && Enabled(s, Lock(step))
    ensures Inv(encode, Next(encode, s, Lock(step)))
  {
    CheckpointLocks.StepKeepsInv(s.locks, step);
    hide CheckpointLocks.Inv, CheckpointLocks.Next, CheckpointLocks.Enabled, Serial;
    var s' := Next(encode, s, Lock(step));
    if |s.calls| > 0 {
      LockKeepsClients(s.locks, step, 0);
    }
    LockKeepsCount(s.locks, step);
    forall id: nat | id < |s'.calls| ensures CallOk(encode, s', id) {
      assert CallOk(encode, s, id);
      LockKeepsClients(s.locks, step, id);
      ClientKeepsCall(encode, s, s', id);
    }
  }

  /** A call is as before when its client kept its keys and entered work only from before it. */
  lemma ClientKeepsCall(encode: Address -> string, s: System, s': System, id: nat)
    requires id < |s.calls| && id < |s.locks.clients| && id < |s'.locks.clients| && CallOk(encode, s, id)
    requires s'.calls == s.calls && s'.checkpoints == s.checkpoints
    requires var before, after := s.locks.clients[id], s'.locks.clients[id];
             && after.keys == before.keys
             && (after.phase.Working? && !before.phase.Working? ==> before.phase.Acquiring?)
             && (after.phase.Acquiring? || after.phase.Waiting? ==> before.phase.Acquiring? || before.phase.Waiting?)
    ensures CallOk(encode, s', id)
  {
  }

  lemma LockKeepsCount(locks: CheckpointLocks.Locks, step: CheckpointLocks.Step)
    requires CheckpointLocks.Enabled(locks, step) && !step.Begin?
    ensures |CheckpointLocks.Next(locks, step).clients| == |locks.clients|
  {
  }

  lemma LoadKeepsInv(encode: Address -> string, s: System, id: nat, a: Address)
    requires Inv(encode, s) && Enabled(s, Load(id, a))
    ensures Inv(encode, Next(encode, s, Load(id, a)))
  {
    hide CheckpointLocks.Inv, Serial;
    var s' := Next(encode, s, Load(id, a));
    forall c: nat | c < |s'.calls| ensures CallOk(encode, s', c) {
      assert CallOk(encode, s, c);
    }
  }

  /** The addresses of two calls inside their work are disjoint. */
  lemma InsideIsDisjoint(encode: Address -> string, s: System, c: nat, d: nat, a: Address)
    requires Injective(encode) && Inv(encode, s) && IsInside(s, c) && IsInside(s, d) && c != d
    requires !Foreign(s.calls[c].items, a)
    ensures Foreign(s.calls[d].items, a)
  {
    assert CallOk(encode, s, c) && CallOk(encode, s, d);
    CheckpointLocks.InsideExcludes(s.locks, c, d, encode(a));
  }

  lemma LoadedAgrees(encode: Address -> string, s: System, id: nat, throws: bool)
    requires Inv(encode, s) && Enabled(s, End(id, throws))
    ensures var call := s.calls[id];
            && AgreeOn(Present(call.loaded), s.checkpoints, call.items)
            && forall a :: a in Present(call.loaded) ==> !Foreign(call.items, a)
  {
    assert CallOk(encode, s, id);
    hide CheckpointLocks.Inv, Serial;
  }

  lemma EndIsAtomic(encode: Address -> string, s: System, id: nat, throws: bool)
    requires Inv(encode, s) && Enabled(s, End(id, throws))
    ensures var s', r := Next(encode, s, End(id, throws)), Atomic(s.checkpoints, s.calls[id].items, throws);
            s'.checkpoints == r.0 && s'.log == s.log + r.1
    ensures forall a :: Foreign(s.calls[id].items, a) ==>
              Stored(Next(encode, s, End(id, throws)).checkpoints, a) == Stored(s.checkpoints, a)
  {
    var call := s.calls[id];
    LoadedAgrees(encode, s, id, throws);
    hide Inv, Enabled, AgreeOn, Present;
    AcceptsAgrees(Present(call.loaded), s.checkpoints, call.items);
    if !throws && Accepts(Present(call.loaded), call.items) {
      CommitIsAtomic(Present(call.loaded), s.checkpoints, call.items);
      AdvanceAgrees(s.checkpoints, s.checkpoints, call.items, |call.items|);
      assert call.items[..|call.items|] == call.items;
    } else {
      assert s.log + [] == s.log;
    }
    hide Accepts, AdvanceAll;
  }

  lemma EndKeepsInv(encode: Address -> string, s: System, id: nat, throws: bool)
    requires Injective(encode) && Inv(encode, s) && Enabled(s, End(id, throws))
    ensures Inv(encode, Next(encode, s, End(id, throws)))
  {
    var s' := Next(encode, s, End(id, throws));
    EndIsAtomic(encode, s, id, throws);
    assert s'.ended[..|s.ended|] == s.ended;
    EndedKeeps(s, id, throws, encode);
    hide CheckpointLocks.Inv, Atomic, Injective, Next, CallOk;
    forall c: nat | c < |s'.calls| ensures CallOk(encode, s', c) {
      OtherStaysOk(encode, s, id, throws, c);
    }
  }

  lemma EndedKeeps(s: System, id: nat, throws: bool, encode: Address -> string)
    requires Enabled(s, End(id, throws))
    ensures var s' := Next(encode, s, End(id, throws));
            s'.locks == s.locks && |s'.calls| == |s.calls| && s'.ended == s.ended + [(s.calls[id].items, throws)]
    ensures forall c: nat :: c < |s.calls| ==>
              Next(encode, s, End(id, throws)).calls[c] == if c == id then s.calls[c].(ended := true) else s.calls[c]
  {
  }

  lemma OtherStaysOk(encode: Address -> string, s: System, id: nat, throws: bool, c: nat)
    requires Injective(encode) && Inv(encode, s) && Enabled(s, End(id, throws)) && c < |s.calls|
    requires forall a :: Foreign(s.calls[id].items, a) ==>
              Stored(Next(encode, s, End(id, throws)).checkpoints, a) == Stored(s.checkpoints, a)
    ensures |s.calls| == |s.locks.clients|
    ensures |Next(encode, s, End(id, throws)).calls| == |s.calls| && Next(encode, s, End(id, throws)).locks == s.locks
    ensures CallOk(encode, Next(encode, s, End(id, throws)), c)
  {
    hide CheckpointLocks.Inv, Next, Injective, Serial, CallOk;
    var s' := Next(encode, s, End(id, throws));
    EndedKeeps(s, id, throws, encode);
    assert CallOk(encode, s, c);
    if c != id && IsInside(s, c) {
      forall a | a in s.calls[c].loaded ensures s.calls[c].loaded[a] == Stored(s'.checkpoints, a) {
        OtherLoadStays(encode, s, id, c, a);
      }
    }
    EndedCallIsOk(encode, s, s', id, c);
  }

  lemma OtherLoadStays(encode: Address -> string, s: System, id: nat, c: nat, a: Address)
    requires Injective(encode) && Inv(encode, s) && IsInside(s, id) && IsInside(s, c) && c != id
    requires a in s.calls[c].loaded
    ensures Foreign(s.calls[id].items, a) && s.calls[c].loaded[a] == Stored(s.checkpoints, a)
  {
    assert CallOk(encode, s, c);
    hide CheckpointLocks.Inv, Injective, Serial, Foreign;
    InsideIsDisjoint(encode, s, c, id, a);
  }

  lemma EndedCallIsOk(encode: Address -> string, s: System, s': System, id: nat, c: nat)
    requires c < |s.calls| && |s.calls| == |s.locks.clients| && CallOk(encode, s, c)
    requires s'.locks == s.locks && |s'.calls| == |s.calls|
    requires s'.calls[c] == if c == id then s.calls[c].(ended := true) else s.calls[c]
    requires c != id && IsInside(s, c) ==>
      forall a :: a in s.calls[c].loaded ==> s.calls[c].loaded[a] == Stored(s'.checkpoints, a)
    ensures CallOk(encode, s', c)
  {
  }

  lemma MoveKeepsInv(encode: Address -> string, s: System, m: Move)
    requires Injective(encode) && Inv(encode, s) && Enabled(s, m)
    ensures Inv(encode, Next(encode, s, m))
  {
    match m
    case Open(items) => OpenKeepsInv(encode, s, items);
    case Lock(step) => LockKeepsInv(encode, s, step);
    case Load(id, a) => LoadKeepsInv(encode, s, id, a);
    case End(id, throws) => EndKeepsInv(encode, s, id, throws);
  }

  lemma {:induction false} RunKeepsInv(encode: Address -> string, moves: seq<Move>)
    requires Injective(encode) && IsRun(encode, moves)
    ensures Inv(encode, Run(encode, moves))
  {
    hide Next, Enabled, Inv;
    if |moves| == 0 {
      IdleIsValid(encode);
    } else {
      RunKeepsInv(encode, moves[..|moves| - 1]);
      MoveKeepsInv(encode, Run(encode, moves[..|moves| - 1]), moves[|moves| - 1]);
    }
  }

  lemma IdleIsValid(encode: Address -> string)
    ensures Inv(encode, START)
  {
  }

  // ---- serial equivalence ----

  /** Whatever the interleaving of locking, loading and committing, checkpoints and applied events
      are those of the ended calls run one after the other, each as one atomic step, in the order
      in which they ended. */
  lemma ConcurrentIsSerial(encode: Address -> string, moves: seq<Move>)
    requires Injective(encode) && IsRun(encode, moves)
    ensures var s := Run(encode, moves); (s.checkpoints, s.log) == Serial(s.ended)
  {
    RunKeepsInv(encode, moves);
  }
}
