/** The exclusive multi-key locks of the in-memory checkpoint store as a step machine. A
    ticket stands for one queued promise: it settles once its own release ran and the ticket
    before it settled. Each call is a client; its steps interleave freely with the others'. */
module CheckpointLocks {
  import opened Common
  import opened StringOrder

  // ---- the machine ----

  datatype Ticket = Ticket(key: string, owner: nat, previous: Option<nat>, released: bool)

  /** `held` lists the tickets acquired so far, in key order. */
  datatype Phase = Acquiring | Waiting(ticket: nat) | Working | Releasing | Done

  datatype Client = Client(keys: seq<string>, held: seq<nat>, phase: Phase)

  datatype Locks = Locks(tickets: seq<Ticket>, tails: map<string, nat>, clients: seq<Client>)

  /** The promise of this ticket has resolved. */
  predicate Settled(tickets: seq<Ticket>, t: nat) {
    && t < |tickets| && tickets[t].released
    && (tickets[t].previous.None? || (tickets[t].previous.value < t && Settled(tickets, tickets[t].previous.value)))
  }

  datatype Step =
    | Begin(keys: seq<string>)
    | Enqueue(id: nat)
    | Acquire(id: nat)
    | StartWork(id: nat)
    | EndWork(id: nat)
    | Release(id: nat)
    | Finish(id: nat)

  predicate Enabled(s: Locks, step: Step) {
    match step
    case Begin(_) => true
    case Enqueue(id) =>
      id < |s.clients| && s.clients[id].phase.Acquiring? && |s.clients[id].held| < |s.clients[id].keys|
    case Acquire(id) =>
      && id < |s.clients| && s.clients[id].phase.Waiting? && s.clients[id].phase.ticket < |s.tickets|
      && var previous := s.tickets[s.clients[id].phase.ticket].previous;
         previous.None? || Settled(s.tickets, previous.value)
    case StartWork(id) =>
      id < |s.clients| && s.clients[id].phase.Acquiring? && |s.clients[id].held| >= |s.clients[id].keys|
    case EndWork(id) => id < |s.clients| && s.clients[id].phase.Working?
    case Release(id) =>
      && id < |s.clients| && s.clients[id].phase.Releasing? && |s.clients[id].held| > 0
      && s.clients[id].held[|s.clients[id].held| - 1] < |s.tickets|
    case Finish(id) => id < |s.clients| && s.clients[id].phase.Releasing? && |s.clients[id].held| == 0
  }

  function TailOf(tails: map<string, nat>, key: string): Option<nat> {
    if key in tails then Some(tails[key]) else None
  }

  function Next(s: Locks, step: Step): Locks
    requires Enabled(s, step)
  {
    match step
    case Begin(keys) => s.(clients := s.clients + [Client(SortedKeys(keys), [], Acquiring)])
    case Enqueue(id) =>
      var client := s.clients[id];
      var key := client.keys[|client.held|];
      Locks(s.tickets + [Ticket(key, id, TailOf(s.tails, key), false)],
            s.tails[key := |s.tickets|],
            s.clients[id := client.(phase := Waiting(|s.tickets|))])
    case Acquire(id) =>
      var client := s.clients[id];
      s.(clients := s.clients[id := client.(held := client.held + [client.phase.ticket], phase := Acquiring)])
    case StartWork(id) => s.(clients := s.clients[id := s.clients[id].(phase := Working)])
    case EndWork(id) => s.(clients := s.clients[id := s.clients[id].(phase := Releasing)])
    case Release(id) =>
      var client := s.clients[id];
      var t := client.held[|client.held| - 1];
      var key := s.tickets[t].key;
      Locks(s.tickets[t := s.tickets[t].(released := true)],
            if TailOf(s.tails, key) == Some(t) then s.tails - {key} else s.tails,
            s.clients[id := client.(held := client.held[..|client.held| - 1])])
    case Finish(id) => s.(clients := s.clients[id := s.clients[id].(phase := Done)])
  }

  const IDLE := Locks([], map[], [])

  ghost predicate IsRun(from: Locks, steps: seq<Step>)
    decreases |steps|, 0
  {
    |steps| == 0
    || (IsRun(from, steps[..|steps| - 1]) && Enabled(Run(from, steps[..|steps| - 1]), steps[|steps| - 1]))
  }

  ghost function Run(from: Locks, steps: seq<Step>): Locks
    requires IsRun(from, steps)
    decreases |steps|, 1
  {
    if |steps| == 0 then from else Next(Run(from, steps[..|steps| - 1]), steps[|steps| - 1])
  }

  // ---- the invariant ----

  /** Every ticket on the key before ticket number n was released. */
  ghost predicate Clear(tickets: seq<Ticket>, key: string, n: nat) {
    forall a: nat :: a < n && a < |tickets| && tickets[a].key == key ==> tickets[a].released
  }

  /** Ticket p is the last one on its key before ticket number n. */
  ghost predicate LastBefore(tickets: seq<Ticket>, p: nat, n: nat) {
    && p < n && p < |tickets|
    && forall a: nat :: p < a < n && a < |tickets| ==> tickets[a].key != tickets[p].key
  }

  ghost predicate Queued(tickets: seq<Ticket>, b: nat)
    requires b < |tickets|
  {
    var t := tickets[b];
    if t.previous.None? then Clear(tickets, t.key, b)
    else LastBefore(tickets, t.previous.value, b) && tickets[t.previous.value].key == t.key
  }

  ghost predicate QueuesOk(tickets: seq<Ticket>) {
    forall b: nat :: b < |tickets| ==> Queued(tickets, b)
  }

  /** A key without a tail is free; a tail is the last ticket on its key and not released. */
  ghost predicate TailOk(tickets: seq<Ticket>, tails: map<string, nat>, key: string) {
    if key in tails then
      LastBefore(tickets, tails[key], |tickets|) && tickets[tails[key]].key == key && !tickets[tails[key]].released
    else Clear(tickets, key, |tickets|)
  }

  ghost predicate TailsOk(tickets: seq<Ticket>, tails: map<string, nat>) {
    forall key :: TailOk(tickets, tails, key)
  }

  predicate Owns(tickets: seq<Ticket>, t: nat, id: nat, key: string) {
    t < |tickets| && tickets[t].key == key && tickets[t].owner == id && !tickets[t].released
  }

  /** The client holds the first keys of its sorted list exclusively. */
  ghost predicate ClientOk(tickets: seq<Ticket>, id: nat, client: Client) {
    && StrictlySorted(client.keys) && |client.held| <= |client.keys|
    && (forall j :: 0 <= j < |client.held| ==>
          Owns(tickets, client.held[j], id, client.keys[j]) && Clear(tickets, client.keys[j], client.held[j]))
    && (client.phase.Waiting? ==>
          |client.held| < |client.keys| && Owns(tickets, client.phase.ticket, id, client.keys[|client.held|]))
    && (client.phase.Working? ==> |client.held| == |client.keys|)
    && (client.phase.Done? ==> client.held == [])
  }

  ghost predicate ClientsOk(s: Locks) {
    forall id: nat :: id < |s.clients| ==> ClientOk(s.tickets, id, s.clients[id])
  }

  predicate Carries(client: Client, t: nat) {
    t in client.held || client.phase == Waiting(t)
  }

  /** Every ticket not yet released is held or awaited by its owner. */
  ghost predicate OwnersOk(s: Locks) {
    forall t: nat :: t < |s.tickets| && !s.tickets[t].released ==>
                       s.tickets[t].owner < |s.clients| && Carries(s.clients[s.tickets[t].owner], t)
  }

  ghost predicate Inv(s: Locks) {
    QueuesOk(s.tickets) && TailsOk(s.tickets, s.tails) && ClientsOk(s) && OwnersOk(s)
  }

  /** A ticket's promise has resolved exactly when it and everything queued before it was released. */
  lemma {:induction false} SettledIffClear(tickets: seq<Ticket>, t: nat)
    requires QueuesOk(tickets) && t < |tickets|
    ensures Settled(tickets, t) <==> Clear(tickets, tickets[t].key, t + 1)
  {
    assert Queued(tickets, t);
    if tickets[t].previous.Some? {
      SettledIffClear(tickets, tickets[t].previous.value);
    }
  }

  lemma MayAcquireIffClear(tickets: seq<Ticket>, t: nat)
    requires QueuesOk(tickets) && t < |tickets|
    ensures tickets[t].previous.None? || Settled(tickets, tickets[t].previous.value)
       <==> Clear(tickets, tickets[t].key, t)
  {
    assert Queued(tickets, t);
    if tickets[t].previous.Some? {
      SettledIffClear(tickets, tickets[t].previous.value);
    }
  }

  // ---- preservation ----

  lemma EnqueueKeepsInv(s: Locks, id: nat)
    requires Inv(s) && Enabled(s, Enqueue(id))
    ensures Inv(Next(s, Enqueue(id)))
  {
    var s' := Next(s, Enqueue(id));
    var n, client := |s.tickets|, s.clients[id];
    var key := client.keys[|client.held|];
    assert TailOk(s.tickets, s.tails, key);
    assert QueuesOk(s'.tickets) by {
      forall b: nat | b < |s'.tickets| ensures Queued(s'.tickets, b) {
        if b < n { assert Queued(s.tickets, b); }
      }
    }
    assert TailsOk(s'.tickets, s'.tails) by {
      forall k ensures TailOk(s'.tickets, s'.tails, k) {
        assert TailOk(s.tickets, s.tails, k);
      }
    }
    assert ClientsOk(s') by {
      forall c: nat | c < |s'.clients| ensures ClientOk(s'.tickets, c, s'.clients[c]) {
        assert ClientOk(s.tickets, c, s.clients[c]);
      }
    }
  }

  lemma AcquireKeepsInv(s: Locks, id: nat)
    requires Inv(s) && Enabled(s, Acquire(id))
    ensures Inv(Next(s, Acquire(id)))
  {
    var s' := Next(s, Acquire(id));
    assert ClientOk(s.tickets, id, s.clients[id]);
    MayAcquireIffClear(s.tickets, s.clients[id].phase.ticket);
    assert ClientsOk(s') by {
      forall c: nat | c < |s'.clients| ensures ClientOk(s'.tickets, c, s'.clients[c]) {
        assert ClientOk(s.tickets, c, s.clients[c]);
      }
    }
  }

  lemma ReleaseKeepsInv(s: Locks, id: nat)
    requires Inv(s) && Enabled(s, Release(id))
    ensures Inv(Next(s, Release(id)))
  {
    var s' := Next(s, Release(id));
    var client := s.clients[id];
    var t := client.held[|client.held| - 1];
    var key := s.tickets[t].key;
    assert ClientOk(s.tickets, id, client);
    assert QueuesOk(s'.tickets) by {
      forall b: nat | b < |s'.tickets| ensures Queued(s'.tickets, b) {
        assert Queued(s.tickets, b);
      }
    }
    assert TailsOk(s'.tickets, s'.tails) by {
      forall k ensures TailOk(s'.tickets, s'.tails, k) {
        assert TailOk(s.tickets, s.tails, k);
      }
    }
    ReleaseKeepsClients(s, id);
  }

  lemma ReleaseKeepsClients(s: Locks, id: nat)
    requires Inv(s) && Enabled(s, Release(id))
    ensures ClientsOk(Next(s, Release(id))) && OwnersOk(Next(s, Release(id)))
  {
    var s' := Next(s, Release(id));
    var client := s.clients[id];
    var last := |client.held| - 1;
    var t := client.held[last];
    assert ClientOk(s.tickets, id, client);
    forall j | 0 <= j < last ensures client.held[j] != t {
      assert Less(client.keys[j], client.keys[last]);
      LessIsTotal(client.keys[j], client.keys[last]);
    }
    hide Less, StrictlySorted, QueuesOk, TailsOk;
    forall c: nat | c < |s'.clients| ensures ClientOk(s'.tickets, c, s'.clients[c]) {
      assert ClientOk(s.tickets, c, s.clients[c]);
    }
    ReleaseKeepsOwners(s, id);
  }

  lemma ReleaseKeepsOwners(s: Locks, id: nat)
    requires ClientsOk(s) && OwnersOk(s) && Enabled(s, Release(id))
    ensures OwnersOk(Next(s, Release(id)))
  {
    var s' := Next(s, Release(id));
    var client := s.clients[id];
    assert ClientOk(s.tickets, id, client);
    hide ClientsOk, ClientOk;
    forall t: nat | t < |s'.tickets| && !s'.tickets[t].released
      ensures s'.tickets[t].owner < |s'.clients| && Carries(s'.clients[s'.tickets[t].owner], t) {
      assert t < |s.tickets| && !s.tickets[t].released && Carries(s.clients[s.tickets[t].owner], t);
    }
  }

  lemma PhaseChangeKeepsInv(s: Locks, id: nat, phase: Phase)
    requires Inv(s) && id < |s.clients|
    requires !s.clients[id].phase.Waiting? && !phase.Waiting?
    requires phase.Working? ==> |s.clients[id].held| >= |s.clients[id].keys|
    requires phase.Done? ==> s.clients[id].held == []
    ensures Inv(s.(clients := s.clients[id := s.clients[id].(phase := phase)]))
  {
    var s' := s.(clients := s.clients[id := s.clients[id].(phase := phase)]);
    assert ClientsOk(s') by {
      forall c: nat | c < |s'.clients| ensures ClientOk(s'.tickets, c, s'.clients[c]) {
        assert ClientOk(s.tickets, c, s.clients[c]);
      }
    }
  }

  lemma StepKeepsInv(s: Locks, step: Step)
    requires Inv(s) && Enabled(s, step)
    ensures Inv(Next(s, step))
  {
    match step
    case Begin(keys) => SortedKeysSorts(keys);
    case Enqueue(id) => EnqueueKeepsInv(s, id);
    case Acquire(id) => AcquireKeepsInv(s, id);
    case StartWork(id) => PhaseChangeKeepsInv(s, id, Working);
    case EndWork(id) => PhaseChangeKeepsInv(s, id, Releasing);
    case Release(id) => ReleaseKeepsInv(s, id);
    case Finish(id) => PhaseChangeKeepsInv(s, id, Done);
  }

  lemma {:induction false} RunKeepsInv(from: Locks, steps: seq<Step>)
    requires Inv(from) && IsRun(from, steps)
    ensures Inv(Run(from, steps))
  {
    if |steps| > 0 {
      RunKeepsInv(from, steps[..|steps| - 1]);
      StepKeepsInv(Run(from, steps[..|steps| - 1]), steps[|steps| - 1]);
    }
  }

  // ---- mutual exclusion ----

  lemma InsideExcludes(s: Locks, c: nat, d: nat, key: string)
    requires Inv(s) && c < |s.clients| && d < |s.clients| && c != d
    requires s.clients[c].phase.Working? && s.clients[d].phase.Working?
    ensures !(key in s.clients[c].keys && key in s.clients[d].keys)
  {
    assert ClientOk(s.tickets, c, s.clients[c]) && ClientOk(s.tickets, d, s.clients[d]);
  }

  /** Two calls that share a key are never inside their work together. */
  lemma MutualExclusion(steps: seq<Step>, c: nat, d: nat, key: string)
    requires IsRun(IDLE, steps)
    requires c < |Run(IDLE, steps).clients| && d < |Run(IDLE, steps).clients| && c != d
    requires Run(IDLE, steps).clients[c].phase.Working? && Run(IDLE, steps).clients[d].phase.Working?
    ensures !(key in Run(IDLE, steps).clients[c].keys && key in Run(IDLE, steps).clients[d].keys)
  {
    RunKeepsInv(IDLE, steps);
    InsideExcludes(Run(IDLE, steps), c, d, key);
  }

  /** Keys are handed over in queueing order: while an earlier ticket on the key is not
      released, no later ticket has been acquired. */
  lemma FirstInFirstOut(steps: seq<Step>, a: nat, b: nat, id: nat)
    requires IsRun(IDLE, steps)
    requires a < b < |Run(IDLE, steps).tickets|
    requires Run(IDLE, steps).tickets[a].key == Run(IDLE, steps).tickets[b].key
    requires !Run(IDLE, steps).tickets[a].released
    requires id < |Run(IDLE, steps).clients|
    ensures b !in Run(IDLE, steps).clients[id].held
  {
    RunKeepsInv(IDLE, steps);
    var s := Run(IDLE, steps);
    assert ClientOk(s.tickets, id, s.clients[id]);
  }

  // ---- deadlock freedom ----

  ghost predicate AllDone(s: Locks) {
    forall id: nat :: id < |s.clients| ==> s.clients[id].phase.Done?
  }

  ghost predicate CanStep(s: Locks, id: nat) {
    exists step: Step :: !step.Begin? && step.id == id && Enabled(s, step)
  }

  ghost function KeysOf(clients: seq<Client>): set<string> {
    if |clients| == 0 then {} else (set k | k in clients[0].keys) + KeysOf(clients[1..])
  }

  lemma {:induction false} KeysOfCovers(clients: seq<Client>, id: nat, k: string)
    requires id < |clients| && k in clients[id].keys
    ensures k in KeysOf(clients)
  {
    if id > 0 {
      KeysOfCovers(clients[1..], id - 1, k);
    }
  }

  ghost function Above(keys: set<string>, k: string): set<string> {
    set x | x in keys && Less(k, x)
  }

  lemma AboveShrinks(keys: set<string>, k: string, higher: string)
    requires higher in keys && Less(k, higher)
    ensures |Above(keys, higher)| < |Above(keys, k)|
  {
    LessIsTotal(higher, higher);
    forall x | x in Above(keys, higher) ensures x in Above(keys, k) {
      LessIsTransitive(k, higher, x);
    }
    assert higher in Above(keys, k) && higher !in Above(keys, higher);
    SubsetCount(Above(keys, higher), Above(keys, k));
  }

  /** The first ticket on the key that is not released, when the queue in front is not clear. */
  lemma FirstUnreleased(tickets: seq<Ticket>, key: string, n: nat) returns (a: nat)
    requires !Clear(tickets, key, n)
    ensures a < n && a < |tickets| && tickets[a].key == key && !tickets[a].released && Clear(tickets, key, a)
  {
    a := 0;
    while a >= |tickets| || tickets[a].key != key || tickets[a].released
      invariant a <= n && Clear(tickets, key, a)
      decreases n - a
    {
      a := a + 1;
    }
  }

  /** From a waiting call, following the owner of the ticket in front leads to a call that can
      step: either that owner is first in the queue, or it waits for a strictly greater key. */
  lemma {:induction false} WaitingLeadsToStep(s: Locks, id: nat) returns (able: nat)
    requires Inv(s) && id < |s.clients| && s.clients[id].phase.Waiting?
    ensures able < |s.clients| && CanStep(s, able)
    decreases |Above(KeysOf(s.clients), s.clients[id].keys[|s.clients[id].held|])|
  {
    var client := s.clients[id];
    assert ClientOk(s.tickets, id, client);
    var t, key := client.phase.ticket, client.keys[|client.held|];
    MayAcquireIffClear(s.tickets, t);
    if Clear(s.tickets, key, t) {
      assert Enabled(s, Acquire(id));
      return id;
    }
    var a := FirstUnreleased(s.tickets, key, t);
    able := OwnerLeadsToStep(s, a, id, key);
  }

  lemma {:induction false} OwnerLeadsToStep(s: Locks, a: nat, id: nat, key: string) returns (able: nat)
    requires Inv(s) && id < |s.clients| && s.clients[id].phase.Waiting?
    requires a < |s.tickets| && !s.tickets[a].released && Clear(s.tickets, s.tickets[a].key, a)
    requires ClientOk(s.tickets, id, s.clients[id])
    requires key == s.tickets[a].key == s.clients[id].keys[|s.clients[id].held|]
    ensures able < |s.clients| && CanStep(s, able)
    decreases |Above(KeysOf(s.clients), key)|, 0
  {
    var owner := s.tickets[a].owner;
    assert Carries(s.clients[owner], a);
    var other := s.clients[owner];
    assert ClientOk(s.tickets, owner, other);
    if !other.phase.Waiting? {
      BusyCanStep(s, owner);
      return owner;
    }
    MayAcquireIffClear(s.tickets, a);
    if other.phase.ticket == a {
      assert Enabled(s, Acquire(owner));
      return owner;
    }
    var higher := other.keys[|other.held|];
    KeysOfCovers(s.clients, owner, higher);
    AboveShrinks(KeysOf(s.clients), key, higher);
    able := WaitingLeadsToStep(s, owner);
  }

  lemma BusyCanStep(s: Locks, id: nat)
    requires Inv(s) && id < |s.clients| && !s.clients[id].phase.Waiting? && !s.clients[id].phase.Done?
    ensures CanStep(s, id)
  {
    var client := s.clients[id];
    assert ClientOk(s.tickets, id, client);
    if client.phase.Working? {
      assert Enabled(s, EndWork(id));
    } else if client.phase.Releasing? {
      assert Enabled(s, if |client.held| == 0 then Finish(id) else Release(id));
    } else {
      assert Enabled(s, if |client.held| < |client.keys| then Enqueue(id) else StartWork(id));
    }
  }

  /** No deadlock: while some call is unfinished, some call can step. */
  lemma DeadlockFree(steps: seq<Step>) returns (able: nat)
    requires IsRun(IDLE, steps) && !AllDone(Run(IDLE, steps))
    ensures able < |Run(IDLE, steps).clients| && CanStep(Run(IDLE, steps), able)
  {
    RunKeepsInv(IDLE, steps);
    able := UnfinishedCanStep(Run(IDLE, steps));
  }

  lemma UnfinishedCanStep(s: Locks) returns (able: nat)
    requires Inv(s) && !AllDone(s)
    ensures able < |s.clients| && CanStep(s, able)
  {
    var id: nat :| id < |s.clients| && !s.clients[id].phase.Done?;
    if s.clients[id].phase.Waiting? {
      able := WaitingLeadsToStep(s, id);
    } else {
      BusyCanStep(s, id);
      able := id;
    }
  }

  // ---- every call finishes ----

  /** Steps the call still has to take. */
  function Remaining(client: Client): int {
    match client.phase
    case Acquiring => 2 * (|client.keys| - |client.held|) + |client.keys| + 3
    case Waiting(_) => 2 * (|client.keys| - |client.held|) + |client.keys| + 2
    case Working => |client.keys| + 2
    case Releasing => |client.held| + 1
    case Done => 0
  }

  function TotalRemaining(clients: seq<Client>): int {
    if |clients| == 0 then 0 else TotalRemaining(clients[..|clients| - 1]) + Remaining(clients[|clients| - 1])
  }

  lemma {:induction false} TotalAfterUpdate(clients: seq<Client>, id: nat, client: Client)
    requires id < |clients|
    ensures TotalRemaining(clients[id := client])
         == TotalRemaining(clients) - Remaining(clients[id]) + Remaining(client)
  {
    var init, updated := clients[..|clients| - 1], clients[id := client];
    if id == |clients| - 1 {
      assert updated[..|clients| - 1] == init;
    } else {
      TotalAfterUpdate(init, id, client);
      assert updated[..|clients| - 1] == init[id := client];
    }
  }

  lemma StepCountsDown(s: Locks, step: Step)
    requires Inv(s) && Enabled(s, step) && !step.Begin?
    ensures TotalRemaining(Next(s, step).clients) == TotalRemaining(s.clients) - 1
  {
    assert ClientOk(s.tickets, step.id, s.clients[step.id]);
    TotalAfterUpdate(s.clients, step.id, Next(s, step).clients[step.id]);
  }

  lemma {:induction false} TotalIsNatural(s: Locks, n: nat)
    requires Inv(s) && n <= |s.clients|
    ensures TotalRemaining(s.clients[..n]) >= 0
    ensures TotalRemaining(s.clients[..n]) == 0 ==> forall id: nat :: id < n ==> s.clients[id].phase.Done?
  {
    if n > 0 {
      assert s.clients[..n][..n - 1] == s.clients[..n - 1];
      TotalIsNatural(s, n - 1);
      assert ClientOk(s.tickets, n - 1, s.clients[n - 1]);
    }
  }

  /** Without new calls, every run is at most as long as the steps remaining, and a run that
      cannot be extended has finished every call and forgotten every key. */
  lemma {:induction false} RunsFinish(from: Locks, steps: seq<Step>)
    requires Inv(from) && IsRun(from, steps)
    requires forall i :: 0 <= i < |steps| ==> !steps[i].Begin?
    ensures |steps| + TotalRemaining(Run(from, steps).clients) == TotalRemaining(from.clients)
    ensures |steps| <= TotalRemaining(from.clients)
    ensures (forall id: nat :: id < |Run(from, steps).clients| ==> !CanStep(Run(from, steps), id)) ==>
              AllDone(Run(from, steps)) && Run(from, steps).tails == map[]
  {
    RunKeepsInv(from, steps);
    var s := Run(from, steps);
    if |steps| > 0 {
      var init := steps[..|steps| - 1];
      RunsFinish(from, init);
      RunKeepsInv(from, init);
      StepCountsDown(Run(from, init), steps[|steps| - 1]);
    }
    assert s.clients[..|s.clients|] == s.clients;
    TotalIsNatural(s, |s.clients|);
    if forall id: nat :: id < |s.clients| ==> !CanStep(s, id) {
      if !AllDone(s) {
        var able := UnfinishedCanStep(s);
      }
      DoneForgetsKeys(s);
    }
  }

  lemma TailOwnerIsUnfinished(s: Locks, key: string)
    requires Inv(s) && key in s.tails
    ensures exists id: nat :: id < |s.clients| && !s.clients[id].phase.Done?
  {
    assert TailOk(s.tickets, s.tails, key);
    var owner := s.tickets[s.tails[key]].owner;
    assert ClientOk(s.tickets, owner, s.clients[owner]);
  }

  /** Once every call is done, no key has a tail left. */
  lemma DoneForgetsKeys(s: Locks)
    requires Inv(s) && AllDone(s)
    ensures s.tails == map[]
  {
    if s.tails != map[] {
      var key :| key in s.tails;
      TailOwnerIsUnfinished(s, key);
    }
  }
}
