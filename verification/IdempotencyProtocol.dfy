/** Many workers running the idempotent-commit program against one leased store and one
    database, step by step. The store's clock readings are arbitrary at every call; a call
    may fail after taking effect; a worker may crash anywhere; a commit request the worker
    no longer waits for may still land. The reconciliation oracle is truthful: it answers
    "committed" only for an attempt that committed and "not committed" only for one that
    never can. */
module IdempotencyProtocol {
  import opened Common
  import opened Idempotency
  import opened IdempotencyTokens

  datatype Request = Request(key: string, fingerprint: string)

  /** One attempt's database transaction, with the outcome staged for it. */
  datatype Attempt = Attempt(request: Request, outcome: string)

  datatype Phase =
    | Idle
    | Reconciling(pending: Reconciliation)
    | Decided(pending: Reconciliation, decision: Decision)
    | Reclaiming
    | Working(handle: Handle, renewalFailed: bool)
    | Ready(handle: Handle, outcome: string, renewalFailed: bool)
    | Failing(handle: Handle)
    | Committing(handle: Handle, outcome: string)
    | Committed(handle: Handle, outcome: string)
    | Replaying(outcome: string)
    | Returned(replayed: bool, outcome: string)

  datatype Worker = Worker(request: Request, phase: Phase)

  /** `issued` records for whom each token was minted; `submitted` the transactions handed to
      the database, `db` the tokens of those that committed, `doomed` the tokens whose
      transaction can no longer commit. */
  datatype World = World(
    store: Store,
    issued: map<string, Request>,
    submitted: map<string, Attempt>,
    db: set<string>,
    doomed: set<string>,
    workers: map<nat, Worker>)

  datatype Answer = SaysCommitted | SaysNotCommitted | SaysUnknown

  datatype Step =
    | Start(id: nat, request: Request, clock: Option<int>, part: string)
    | AskOracle(id: nat, answer: Answer)
    | Settle(id: nat, clock: Option<int>)
    | Reclaim(id: nat, clock: Option<int>, part: string)
    | Heartbeat(id: nat, clock: Option<int>, applied: bool, acknowledged: bool)
    | FinishWork(id: nat, clock: Option<int>, outcome: string, acknowledged: bool)
    | Throw(id: nat)
    | Release(id: nat, applied: bool)
    | Submit(id: nat)
    | Land(token: string)
    | Doom(token: string)
    | LearnCommitted(id: nat)
    | LearnNothing(id: nat)
    | Finalize(id: nat, applied: bool)
    | ReturnReplay(id: nat)
    | Crash(id: nat)

  // ---- the program of one worker ----

  predicate At(w: World, id: nat) { id in w.workers }

  function PhaseOf(w: World, id: nat): Phase {
    if id in w.workers then w.workers[id].phase else Idle
  }

  function Moved(w: World, id: nat, phase: Phase): World
    requires id in w.workers
  {
    w.(workers := w.workers[id := w.workers[id].(phase := phase)])
  }

  /** What the first claim leads to. */
  function AfterClaim(result: Result<Claim, StoreError>): Phase {
    match result
    case Err(_) => Idle
    case Ok(Claimed(h)) => Working(h, false)
    case Ok(Completed(outcome)) => Replaying(outcome)
    case Ok(ReconciliationRequired(r)) => Reconciling(r)
  }

  /** The claim repeated after a reconciliation does not reconcile again. */
  function AfterReclaim(result: Result<Claim, StoreError>): Phase {
    var phase := AfterClaim(result);
    if phase.Reconciling? then Idle else phase
  }

  function IssuedBy(issued: map<string, Request>, request: Request, result: Result<Claim, StoreError>)
    : map<string, Request>
  {
    if result.Ok? && result.value.Claimed? then issued[result.value.handle.token := request] else issued
  }

  function DoClaim(c: Config, w: World, id: nat, request: Request, clock: Option<int>, part: string, again: bool)
    : World
  {
    var reply := ClaimKey(c, w.store, clock, part, request.key, request.fingerprint);
    var phase := if again then AfterReclaim(reply.result) else AfterClaim(reply.result);
    w.(store := reply.store,
       issued := IssuedBy(w.issued, request, reply.result),
       workers := w.workers[id := Worker(request, phase)])
  }

  /** Which steps the program, the database and a truthful oracle allow. */
  predicate Enabled(w: World, step: Step) {
    match step
    case Start(id, _, _, _) => PhaseOf(w, id).Idle? || PhaseOf(w, id).Returned?
    case AskOracle(id, answer) =>
      var phase := PhaseOf(w, id);
      && phase.Reconciling?
      && (answer.SaysCommitted? ==> phase.pending.token in w.db)
      && (answer.SaysNotCommitted? ==> phase.pending.token in w.doomed)
    case Settle(id, _) => PhaseOf(w, id).Decided?
    case Reclaim(id, _, _) => PhaseOf(w, id).Reclaiming?
    case Heartbeat(id, _, _, _) =>
      var phase := PhaseOf(w, id);
      (phase.Working? || phase.Ready?) && !phase.renewalFailed
    case FinishWork(id, _, _, _) => PhaseOf(w, id).Working?
    case Throw(id) => PhaseOf(w, id).Working? || PhaseOf(w, id).Ready?
    case Release(id, _) => PhaseOf(w, id).Failing?
    case Submit(id) => PhaseOf(w, id).Ready? && !PhaseOf(w, id).renewalFailed
    case Land(token) => token in w.submitted && token !in w.doomed
    case Doom(token) => token !in w.db
    case LearnCommitted(id) => PhaseOf(w, id).Committing? && PhaseOf(w, id).handle.token in w.db
    case LearnNothing(id) => PhaseOf(w, id).Committing?
    case Finalize(id, _) => PhaseOf(w, id).Committed?
    case ReturnReplay(id) => PhaseOf(w, id).Replaying?
    case Crash(id) => At(w, id)
  }

  function Next(c: Config, w: World, step: Step): World
    requires Enabled(w, step)
  {
    match step
    case Start(id, request, clock, part) => DoClaim(c, w, id, request, clock, part, false)
    case AskOracle(id, answer) =>
      var r := w.workers[id].phase.pending;
      Moved(w, id, match answer
                   case SaysCommitted => Decided(r, WasCommitted)
                   case SaysNotCommitted => Decided(r, WasNotCommitted)
                   case SaysUnknown => Idle)
    case Settle(id, clock) =>
      var phase := w.workers[id].phase;
      var reply := Reconcile(w.store, clock, phase.pending, phase.decision);
      Moved(w.(store := reply.store), id, if reply.result.Ok? then Reclaiming else Idle)
    case Reclaim(id, clock, part) => DoClaim(c, w, id, w.workers[id].request, clock, part, true)
    case Heartbeat(id, clock, applied, acknowledged) =>
      var phase := w.workers[id].phase;
      var reply := Renew(c, w.store, clock, phase.handle);
      Moved(if applied then w.(store := reply.store) else w, id,
            phase.(renewalFailed := !(applied && acknowledged && reply.result.Ok?)))
    case FinishWork(id, clock, outcome, acknowledged) =>
      var phase := w.workers[id].phase;
      var reply := Complete(c, w.store, clock, phase.handle, outcome);
      Moved(w.(store := reply.store), id,
            if reply.result.Ok? && acknowledged then Ready(phase.handle, outcome, phase.renewalFailed)
            else Failing(phase.handle))
    case Throw(id) => Moved(w, id, Failing(w.workers[id].phase.handle))
    case Release(id, applied) =>
      Moved(if applied then w.(store := Abandon(w.store, w.workers[id].phase.handle)) else w, id, Idle)
    case Submit(id) =>
      var phase := w.workers[id].phase;
      Moved(w.(submitted := w.submitted[phase.handle.token := Attempt(w.workers[id].request, phase.outcome)]),
            id, Committing(phase.handle, phase.outcome))
    case Land(token) => w.(db := w.db + {token})
    case Doom(token) => w.(doomed := w.doomed + {token})
    case LearnCommitted(id) =>
      Moved(w, id, Committed(w.workers[id].phase.handle, w.workers[id].phase.outcome))
    case LearnNothing(id) => Moved(w, id, Idle)
    case Finalize(id, applied) =>
      var phase := w.workers[id].phase;
      Moved(if applied then w.(store := Confirm(w.store, phase.handle)) else w, id, Returned(false, phase.outcome))
    case ReturnReplay(id) => Moved(w, id, Returned(true, w.workers[id].phase.outcome))
    case Crash(id) => Moved(w, id, Idle)
  }

  const START := World(FRESH, map[], map[], {}, {}, map[])

  ghost predicate IsRun(c: Config, steps: seq<Step>)
    decreases |steps|, 0
  {
    |steps| == 0
    || (IsRun(c, steps[..|steps| - 1]) && Enabled(Run(c, steps[..|steps| - 1]), steps[|steps| - 1]))
  }

  ghost function Run(c: Config, steps: seq<Step>): World
    requires IsRun(c, steps)
    decreases |steps|, 1
  {
    if |steps| == 0 then START
    else Next(c, Run(c, steps[..|steps| - 1]), steps[|steps| - 1])
  }

  // ---- the invariant ----

  ghost predicate KnownTokens(generation: nat, issued: map<string, Request>) {
    forall t :: t in issued ==> exists g: nat :: g <= generation && HasGeneration(t, g)
  }

  /** The store holds this attempt's outcome, staged or confirmed, under its token. */
  predicate Backs(entries: map<string, Entry>, token: string, attempt: Attempt) {
    && attempt.request.key in entries
    && var e := entries[attempt.request.key];
       && !e.Pending? && e.token == token && e.outcome == attempt.outcome
       && e.fingerprint == attempt.request.fingerprint
  }

  predicate EntryOk(key: string, e: Entry, issued: map<string, Request>, submitted: map<string, Attempt>,
                    db: set<string>) {
    && e.token in issued && issued[e.token] == Request(key, e.fingerprint)
    && (e.Confirmed? ==>
        e.token in db && e.token in submitted && submitted[e.token] == Attempt(issued[e.token], e.outcome))
  }

  ghost predicate EntriesOk(entries: map<string, Entry>, issued: map<string, Request>, submitted: map<string, Attempt>,
                            db: set<string>) {
    forall k :: k in entries ==> EntryOk(k, entries[k], issued, submitted, db)
  }

  predicate SubmittedTokenOk(t: string, attempt: Attempt, issued: map<string, Request>, doomed: set<string>,
                             entries: map<string, Entry>) {
    && t in issued && attempt.request == issued[t]
    && (t in doomed || Backs(entries, t, attempt))
  }

  ghost predicate SubmittedOk(submitted: map<string, Attempt>, issued: map<string, Request>, doomed: set<string>,
                              entries: map<string, Entry>) {
    forall t :: t in submitted ==> SubmittedTokenOk(t, submitted[t], issued, doomed, entries)
  }

  ghost predicate DbOk(w: World) {
    w.db <= w.submitted.Keys && w.db !! w.doomed
  }

  /** The worker holds a token whose transaction was not handed to the database. */
  predicate Unsubmitted(phase: Phase) { phase.Working? || phase.Ready? || phase.Failing? }

  predicate OwnsHandle(w: World, worker: Worker, h: Handle) {
    h.key == worker.request.key && h.token in w.issued && w.issued[h.token] == worker.request
  }

  ghost predicate CommittedFor(w: World, request: Request, outcome: string) {
    exists t :: t in w.db && t in w.submitted && w.submitted[t] == Attempt(request, outcome)
  }

  ghost predicate WorkerOk(w: World, worker: Worker) {
    match worker.phase
    case Idle | Reclaiming | Reconciling(_) => true
    case Decided(r, d) => if d.WasCommitted? then r.token in w.db else r.token in w.doomed
    case Working(h, _) => OwnsHandle(w, worker, h) && h.token !in w.submitted
    case Failing(h) => OwnsHandle(w, worker, h) && h.token !in w.submitted
    case Ready(h, outcome, _) =>
      && OwnsHandle(w, worker, h) && h.token !in w.submitted
      && (h.token in w.doomed || Backs(w.store.entries, h.token, Attempt(worker.request, outcome)))
    case Committing(h, outcome) =>
      OwnsHandle(w, worker, h) && h.token in w.submitted && w.submitted[h.token] == Attempt(worker.request, outcome)
    case Committed(h, outcome) =>
      && OwnsHandle(w, worker, h) && h.token in w.db
      && h.token in w.submitted && w.submitted[h.token] == Attempt(worker.request, outcome)
    case Replaying(outcome) => CommittedFor(w, worker.request, outcome)
    case Returned(_, outcome) => CommittedFor(w, worker.request, outcome)
  }

  ghost predicate WorkersOk(w: World) {
    forall i :: i in w.workers ==> WorkerOk(w, w.workers[i])
  }

  ghost predicate HandlesDistinct(workers: map<nat, Worker>) {
    forall i, j :: i in workers && j in workers && i != j
      && Unsubmitted(workers[i].phase) && Unsubmitted(workers[j].phase)
      ==> workers[i].phase.handle.token != workers[j].phase.handle.token
  }

  ghost predicate Inv(w: World) {
    && KnownTokens(w.store.tokenGeneration, w.issued)
    && EntriesOk(w.store.entries, w.issued, w.submitted, w.db)
    && SubmittedOk(w.submitted, w.issued, w.doomed, w.store.entries)
    && DbOk(w)
    && WorkersOk(w)
    && HandlesDistinct(w.workers)
  }

  // ---- steps that leave the store, the tokens and the database alone ----

  /** Moving one worker to a phase that is fine and holds no other unsubmitted token. */
  lemma MoveKeepsInv(w: World, id: nat, phase: Phase)
    requires Inv(w) && id in w.workers
    requires WorkerOk(w, w.workers[id].(phase := phase))
    requires Unsubmitted(phase) ==> Unsubmitted(w.workers[id].phase) && phase.handle == w.workers[id].phase.handle
    ensures Inv(Moved(w, id, phase))
  {
    var w' := Moved(w, id, phase);
    assert WorkersOk(w') by {
      forall i | i in w'.workers ensures WorkerOk(w', w'.workers[i]) {
        WorkerSurvives(w, w', w'.workers[i]);
      }
    }
  }

  /** What a worker relies on stays true when tokens, attempts and decisions only grow and
      the staged outcome of every undoomed unsubmitted attempt stays. */
  lemma WorkerSurvives(w: World, w': World, worker: Worker)
    requires WorkerOk(w, worker)
    requires forall t :: t in w.issued ==> t in w'.issued && w'.issued[t] == w.issued[t]
    requires w.db <= w'.db && w.doomed <= w'.doomed
    requires forall t :: t in w.submitted ==> t in w'.submitted && w'.submitted[t] == w.submitted[t]
    requires Unsubmitted(worker.phase) ==> worker.phase.handle.token !in w'.submitted
    requires worker.phase.Ready? ==>
               var token, attempt := worker.phase.handle.token, Attempt(worker.request, worker.phase.outcome);
               Backs(w.store.entries, token, attempt) ==> token in w'.doomed || Backs(w'.store.entries, token, attempt)
    ensures WorkerOk(w', worker)
  {
    match worker.phase
    case Replaying(outcome) =>
      var t :| t in w.db && t in w.submitted && w.submitted[t] == Attempt(worker.request, outcome);
      assert t in w'.db && t in w'.submitted;
    case Returned(_, outcome) =>
      var t :| t in w.db && t in w.submitted && w.submitted[t] == Attempt(worker.request, outcome);
      assert t in w'.db && t in w'.submitted;
    case _ =>
  }

  lemma LandKeepsInv(w: World, token: string)
    requires Inv(w) && token in w.submitted && token !in w.doomed
    ensures Inv(w.(db := w.db + {token}))
  {
    var w' := w.(db := w.db + {token});
    assert WorkersOk(w') by {
      forall i | i in w'.workers ensures WorkerOk(w', w'.workers[i]) {
        WorkerSurvives(w, w', w'.workers[i]);
      }
    }
  }

  lemma DoomKeepsInv(w: World, token: string)
    requires Inv(w) && token !in w.db
    ensures Inv(w.(doomed := w.doomed + {token}))
  {
    var w' := w.(doomed := w.doomed + {token});
    assert WorkersOk(w') by {
      forall i | i in w'.workers ensures WorkerOk(w', w'.workers[i]) {
        WorkerSurvives(w, w', w'.workers[i]);
      }
    }
  }

  lemma SubmitKeepsInv(w: World, id: nat)
    requires Inv(w) && id in w.workers && w.workers[id].phase.Ready?
    ensures Inv(Moved(w.(submitted := w.submitted[w.workers[id].phase.handle.token :=
                              Attempt(w.workers[id].request, w.workers[id].phase.outcome)]),
                      id, Committing(w.workers[id].phase.handle, w.workers[id].phase.outcome)))
  {
    var worker := w.workers[id];
    var token, attempt := worker.phase.handle.token, Attempt(worker.request, worker.phase.outcome);
    var w1 := w.(submitted := w.submitted[token := attempt]);
    var w' := Moved(w1, id, Committing(worker.phase.handle, worker.phase.outcome));
    assert WorkerOk(w, worker);
    assert SubmittedOk(w'.submitted, w'.issued, w'.doomed, w'.store.entries);
    assert EntriesOk(w'.store.entries, w'.issued, w'.submitted, w'.db) by {
      assert token !in w.submitted;
    }
    assert WorkersOk(w') by {
      forall i | i in w'.workers ensures WorkerOk(w', w'.workers[i]) {
        if i != id {
          assert WorkerOk(w, w.workers[i]);
          WorkerSurvives(w, w', w'.workers[i]);
        }
      }
    }
    assert HandlesDistinct(w'.workers);
  }

  // ---- steps that change one record of the store ----

  /** The new entries still hold every outcome a submitted or ready attempt depends on. */
  ghost predicate KeepsOutcomes(w: World, entries': map<string, Entry>) {
    forall t, attempt :: Backs(w.store.entries, t, attempt) && t !in w.doomed && (t in w.submitted || HeldReady(w, t))
      ==> Backs(entries', t, attempt)
  }

  ghost predicate HeldReady(w: World, token: string) {
    exists i :: i in w.workers && w.workers[i].phase.Ready? && w.workers[i].phase.handle.token == token
  }

  /** A store change at constant tokens keeps the invariant when it keeps records well formed
      and keeps the outcomes depended on. */
  lemma StoreChangeKeepsInv(w: World, store': Store)
    requires Inv(w) && store'.tokenGeneration == w.store.tokenGeneration
    requires EntriesOk(store'.entries, w.issued, w.submitted, w.db)
    requires KeepsOutcomes(w, store'.entries)
    ensures Inv(w.(store := store'))
  {
    var w' := w.(store := store');
    assert SubmittedOk(w'.submitted, w'.issued, w'.doomed, w'.store.entries) by {
      forall t | t in w.submitted ensures SubmittedTokenOk(t, w.submitted[t], w.issued, w.doomed, store'.entries) {
        assert SubmittedTokenOk(t, w.submitted[t], w.issued, w.doomed, w.store.entries);
      }
    }
    assert WorkersOk(w') by {
      forall i | i in w'.workers ensures WorkerOk(w', w'.workers[i]) {
        assert WorkerOk(w, w.workers[i]);
        if w.workers[i].phase.Ready? {
          assert HeldReady(w, w.workers[i].phase.handle.token);
        }
        WorkerSurvives(w, w', w'.workers[i]);
      }
    }
  }

  lemma SettleKeepsInv(w: World, id: nat, clock: Option<int>)
    requires Inv(w) && id in w.workers && w.workers[id].phase.Decided?
    ensures Inv(w.(store := Reconcile(w.store, clock, w.workers[id].phase.pending, w.workers[id].phase.decision).store))
  {
    var phase := w.workers[id].phase;
    assert WorkerOk(w, w.workers[id]);
    var store' := Reconcile(w.store, clock, phase.pending, phase.decision).store;
    var key, token := phase.pending.key, phase.pending.token;
    if store' != w.store {
      var e := w.store.entries[key];
      assert EntryOk(key, e, w.issued, w.submitted, w.db);
      if phase.decision.WasCommitted? {
        assert SubmittedTokenOk(token, w.submitted[token], w.issued, w.doomed, w.store.entries);
      }
      StoreChangeKeepsInv(w, store');
    }
  }

  /** Nobody but its holder depends on an unsubmitted handle. */
  lemma OnlyHolderDepends(w: World, id: nat, token: string)
    requires Inv(w) && id in w.workers && Unsubmitted(w.workers[id].phase) && token == w.workers[id].phase.handle.token
    ensures token !in w.submitted
    ensures !w.workers[id].phase.Ready? ==> !HeldReady(w, token)
  {
    assert WorkerOk(w, w.workers[id]);
  }

  lemma ReleaseKeepsInv(w: World, id: nat)
    requires Inv(w) && id in w.workers && w.workers[id].phase.Failing?
    ensures Inv(w.(store := Abandon(w.store, w.workers[id].phase.handle)))
  {
    var h := w.workers[id].phase.handle;
    OnlyHolderDepends(w, id, h.token);
    StoreChangeKeepsInv(w, Abandon(w.store, h));
  }

  lemma RenewKeepsInv(c: Config, w: World, id: nat, clock: Option<int>)
    requires Inv(w) && id in w.workers && Unsubmitted(w.workers[id].phase)
    ensures Inv(w.(store := Renew(c, w.store, clock, w.workers[id].phase.handle).store))
  {
    var h := w.workers[id].phase.handle;
    var store' := Renew(c, w.store, clock, h).store;
    if store' != w.store {
      assert EntryOk(h.key, w.store.entries[h.key], w.issued, w.submitted, w.db);
      StoreChangeKeepsInv(w, store');
    }
  }

  lemma ConfirmKeepsInv(w: World, id: nat)
    requires Inv(w) && id in w.workers && w.workers[id].phase.Committed?
    ensures Inv(w.(store := Confirm(w.store, w.workers[id].phase.handle)))
  {
    var h := w.workers[id].phase.handle;
    assert WorkerOk(w, w.workers[id]);
    var store' := Confirm(w.store, h);
    if store' != w.store {
      assert EntryOk(h.key, w.store.entries[h.key], w.issued, w.submitted, w.db);
      assert SubmittedTokenOk(h.token, w.submitted[h.token], w.issued, w.doomed, w.store.entries);
      StoreChangeKeepsInv(w, store');
    }
  }

  lemma CompleteKeepsInv(c: Config, w: World, id: nat, clock: Option<int>, outcome: string)
    requires Inv(w) && id in w.workers && w.workers[id].phase.Working?
    ensures Inv(w.(store := Complete(c, w.store, clock, w.workers[id].phase.handle, outcome).store))
    ensures Complete(c, w.store, clock, w.workers[id].phase.handle, outcome).result.Ok? ==>
              Backs(Complete(c, w.store, clock, w.workers[id].phase.handle, outcome).store.entries,
                    w.workers[id].phase.handle.token, Attempt(w.workers[id].request, outcome))
  {
    var h := w.workers[id].phase.handle;
    assert WorkerOk(w, w.workers[id]);
    var store' := Complete(c, w.store, clock, h, outcome).store;
    if store' != w.store || Complete(c, w.store, clock, h, outcome).result.Ok? {
      assert EntryOk(h.key, w.store.entries[h.key], w.issued, w.submitted, w.db);
      StoreChangeKeepsInv(w, store');
    }
  }

  // ---- claims ----

  lemma MintedIsUnknown(w: World, part: string)
    requires KnownTokens(w.store.tokenGeneration, w.issued)
    ensures Token(w.store.tokenGeneration + 1, part) !in w.issued
    ensures HasGeneration(Token(w.store.tokenGeneration + 1, part), w.store.tokenGeneration + 1)
  {
    var t := Token(w.store.tokenGeneration + 1, part);
    if t in w.issued {
      var g: nat :| g <= w.store.tokenGeneration && HasGeneration(t, g);
      var p :| t == Token(g, p);
      TokenIsInjective(g, p, w.store.tokenGeneration + 1, part);
    }
  }

  lemma ClaimShape(c: Config, s: Store, clock: Option<int>, part: string, key: string, fingerprint: string)
    ensures var reply := ClaimKey(c, s, clock, part, key, fingerprint);
            && reply.store.tokenGeneration >= s.tokenGeneration
            && (reply.result.Err? ==> reply.store.entries == s.entries)
            && (reply.result.Ok? && reply.result.value.Claimed? ==>
                  && reply.store.tokenGeneration == s.tokenGeneration + 1
                  && reply.result.value.handle == Handle(key, Token(s.tokenGeneration + 1, part))
                  && (key in s.entries ==> s.entries[key].Pending?)
                  && exists e: Entry :: e.Pending? && e.token == Token(s.tokenGeneration + 1, part)
                       && e.fingerprint == fingerprint && reply.store.entries == s.entries[key := e])
            && (reply.result.Ok? && !reply.result.value.Claimed? ==> reply.store == s)
            && (reply.result.Ok? && reply.result.value.Completed? ==>
                  && key in s.entries && s.entries[key].Confirmed? && s.entries[key].fingerprint == fingerprint
                  && s.entries[key].outcome == reply.result.value.outcome)
  {
    var reply := ClaimKey(c, s, clock, part, key, fingerprint);
    if reply.result.Ok? && reply.result.value.Claimed? {
      var e := Pending(fingerprint, Token(s.tokenGeneration + 1, part), Now(clock).value + c.leaseDurationMs);
      assert reply.store.entries == s.entries[key := e];
    }
  }

  function Minted(w: World, id: nat, request: Request, e: Entry): World {
    w.(store := Store(w.store.entries[request.key := e], w.store.tokenGeneration + 1),
       issued := w.issued[e.token := request],
       workers := w.workers[id := Worker(request, Working(Handle(request.key, e.token), false))])
  }

  lemma UnissuedIsUnsubmitted(w: World, token: string)
    requires Inv(w) && token !in w.issued
    ensures token !in w.submitted
  {
  }

  lemma MintKeepsTokens(w: World, request: Request, part: string, e: Entry)
    requires KnownTokens(w.store.tokenGeneration, w.issued)
    requires e.token == Token(w.store.tokenGeneration + 1, part)
    ensures e.token !in w.issued
    ensures KnownTokens(w.store.tokenGeneration + 1, w.issued[e.token := request])
  {
    MintedIsUnknown(w, part);
    var issued' := w.issued[e.token := request];
    forall t | t in issued' ensures exists g: nat :: g <= w.store.tokenGeneration + 1 && HasGeneration(t, g) {
      if t != e.token {
        var g: nat :| g <= w.store.tokenGeneration && HasGeneration(t, g);
        assert g <= w.store.tokenGeneration + 1;
      }
    }
  }

  lemma MintKeepsRecords(w: World, request: Request, e: Entry)
    requires Inv(w) && e.token !in w.issued
    requires request.key in w.store.entries ==> w.store.entries[request.key].Pending?
    requires e.Pending? && e.fingerprint == request.fingerprint
    ensures EntriesOk(w.store.entries[request.key := e], w.issued[e.token := request], w.submitted, w.db)
    ensures SubmittedOk(w.submitted, w.issued[e.token := request], w.doomed, w.store.entries[request.key := e])
  {
    var entries', issued' := w.store.entries[request.key := e], w.issued[e.token := request];
    forall k | k in entries' ensures EntryOk(k, entries'[k], issued', w.submitted, w.db) {
      if k != request.key {
        assert EntryOk(k, w.store.entries[k], w.issued, w.submitted, w.db);
      }
    }
    forall t | t in w.submitted ensures SubmittedTokenOk(t, w.submitted[t], issued', w.doomed, entries') {
      assert SubmittedTokenOk(t, w.submitted[t], w.issued, w.doomed, w.store.entries);
    }
  }

  lemma MintKeepsWorkers(w: World, id: nat, request: Request, e: Entry)
    requires Inv(w) && e.token !in w.issued && e.token !in w.submitted
    requires request.key in w.store.entries ==> w.store.entries[request.key].Pending?
    ensures WorkersOk(Minted(w, id, request, e))
    ensures HandlesDistinct(Minted(w, id, request, e).workers)
  {
    var w' := Minted(w, id, request, e);
    forall i | i in w.workers && i != id
      ensures WorkerOk(w', w.workers[i])
      ensures Unsubmitted(w.workers[i].phase) ==> w.workers[i].phase.handle.token != e.token
    {
      assert WorkerOk(w, w.workers[i]);
      WorkerSurvives(w, w', w.workers[i]);
    }
    assert WorkerOk(w', w'.workers[id]);
  }

  lemma MintKeepsInv(w: World, id: nat, request: Request, part: string, e: Entry)
    requires Inv(w)
    requires request.key in w.store.entries ==> w.store.entries[request.key].Pending?
    requires e.Pending? && e.token == Token(w.store.tokenGeneration + 1, part) && e.fingerprint == request.fingerprint
    ensures Inv(Minted(w, id, request, e))
  {
    MintKeepsTokens(w, request, part, e);
    UnissuedIsUnsubmitted(w, e.token);
    MintKeepsRecords(w, request, e);
    MintKeepsWorkers(w, id, request, e);
    assert DbOk(Minted(w, id, request, e));
    hide KnownTokens, EntriesOk, SubmittedOk, WorkersOk, HandlesDistinct;
  }

  /** A claim that mints nothing only moves its worker, possibly spending a token number. */
  lemma UnmintedClaimKeepsInv(w: World, id: nat, request: Request, phase: Phase, generation: nat)
    requires Inv(w) && generation >= w.store.tokenGeneration
    requires !Unsubmitted(PhaseOf(w, id)) && !Unsubmitted(phase)
    requires WorkerOk(w, Worker(request, phase))
    ensures Inv(w.(store := w.store.(tokenGeneration := generation),
                   workers := w.workers[id := Worker(request, phase)]))
  {
    var w' := w.(store := w.store.(tokenGeneration := generation), workers := w.workers[id := Worker(request, phase)]);
    assert KnownTokens(w'.store.tokenGeneration, w'.issued) by {
      forall t | t in w'.issued ensures exists g: nat :: g <= w'.store.tokenGeneration && HasGeneration(t, g) {
        var g: nat :| g <= w.store.tokenGeneration && HasGeneration(t, g);
        assert g <= w'.store.tokenGeneration;
      }
    }
    assert WorkersOk(w') by {
      forall i | i in w'.workers ensures WorkerOk(w', w'.workers[i]) {
        WorkerSurvives(w, w', w'.workers[i]);
      }
    }
  }

  lemma ClaimKeepsInv(c: Config, w: World, id: nat, request: Request, clock: Option<int>, part: string, again: bool)
    requires Inv(w) && !Unsubmitted(PhaseOf(w, id))
    ensures Inv(DoClaim(c, w, id, request, clock, part, again))
  {
    var s := w.store;
    var reply := ClaimKey(c, s, clock, part, request.key, request.fingerprint);
    var w' := DoClaim(c, w, id, request, clock, part, again);
    ClaimShape(c, s, clock, part, request.key, request.fingerprint);
    if reply.result.Ok? && reply.result.value.Claimed? {
      var e: Entry :| e.Pending? && e.token == Token(s.tokenGeneration + 1, part)
                      && e.fingerprint == request.fingerprint && reply.store.entries == s.entries[request.key := e];
      MintKeepsInv(w, id, request, part, e);
    } else {
      var phase := if again then AfterReclaim(reply.result) else AfterClaim(reply.result);
      if reply.result.Ok? && reply.result.value.Completed? {
        var e := s.entries[request.key];
        assert EntryOk(request.key, e, w.issued, w.submitted, w.db);
        assert CommittedFor(w, request, e.outcome);
      }
      UnmintedClaimKeepsInv(w, id, request, phase, reply.store.tokenGeneration);
    }
  }

  // ---- every step, every run ----

  lemma StepKeepsInv(c: Config, w: World, step: Step)
    requires Inv(w) && Enabled(w, step)
    ensures Inv(Next(c, w, step))
  {
    hide Inv;
    match step
    case Start(id, request, clock, part) => ClaimKeepsInv(c, w, id, request, clock, part, false);
    case Reclaim(id, clock, part) => ClaimKeepsInv(c, w, id, w.workers[id].request, clock, part, true);
    case Land(token) => LandKeepsInv(w, token);
    case Doom(token) => DoomKeepsInv(w, token);
    case Submit(id) => SubmitKeepsInv(w, id);
    case Settle(id, clock) => SettleStepKeepsInv(c, w, id, clock);
    case Heartbeat(id, clock, applied, acknowledged) => HeartbeatKeepsInv(c, w, id, clock, applied, acknowledged);
    case FinishWork(id, clock, outcome, acknowledged) => FinishKeepsInv(c, w, id, clock, outcome, acknowledged);
    case Release(id, applied) => ReleaseStepKeepsInv(c, w, id, applied);
    case Finalize(id, applied) => FinalizeKeepsInv(w, id, applied);
    case AskOracle(id, answer) => OracleKeepsInv(c, w, id, answer);
    case Throw(id) => ThrowKeepsInv(w, id);
    case LearnCommitted(id) => LearnKeepsInv(w, id);
    case LearnNothing(id) => MoveKeepsInv(w, id, Idle);
    case ReturnReplay(id) => ReplayKeepsInv(w, id);
    case Crash(id) => MoveKeepsInv(w, id, Idle);
  }

  lemma SettleStepKeepsInv(c: Config, w: World, id: nat, clock: Option<int>)
    requires Inv(w) && Enabled(w, Settle(id, clock))
    ensures Inv(Next(c, w, Settle(id, clock)))
  {
    hide Inv;
    SettleKeepsInv(w, id, clock);
    var phase := w.workers[id].phase;
    var reply := Reconcile(w.store, clock, phase.pending, phase.decision);
    MoveKeepsInv(w.(store := reply.store), id, if reply.result.Ok? then Reclaiming else Idle);
  }

  lemma ReleaseStepKeepsInv(c: Config, w: World, id: nat, applied: bool)
    requires Inv(w) && Enabled(w, Release(id, applied))
    ensures Inv(Next(c, w, Release(id, applied)))
  {
    hide Inv;
    ReleaseKeepsInv(w, id);
    MoveKeepsInv(if applied then w.(store := Abandon(w.store, w.workers[id].phase.handle)) else w, id, Idle);
  }

  lemma OracleKeepsInv(c: Config, w: World, id: nat, answer: Answer)
    requires Inv(w) && Enabled(w, AskOracle(id, answer))
    ensures Inv(Next(c, w, AskOracle(id, answer)))
  {
    var r := w.workers[id].phase.pending;
    match answer
    case SaysCommitted => MoveKeepsInv(w, id, Decided(r, WasCommitted));
    case SaysNotCommitted => MoveKeepsInv(w, id, Decided(r, WasNotCommitted));
    case SaysUnknown => MoveKeepsInv(w, id, Idle);
  }

  lemma ThrowKeepsInv(w: World, id: nat)
    requires Inv(w) && Enabled(w, Throw(id))
    ensures Inv(Moved(w, id, Failing(w.workers[id].phase.handle)))
  {
    assert WorkerOk(w, w.workers[id]);
    MoveKeepsInv(w, id, Failing(w.workers[id].phase.handle));
  }

  lemma ReplayKeepsInv(w: World, id: nat)
    requires Inv(w) && Enabled(w, ReturnReplay(id))
    ensures Inv(Moved(w, id, Returned(true, w.workers[id].phase.outcome)))
  {
    assert WorkerOk(w, w.workers[id]);
    MoveKeepsInv(w, id, Returned(true, w.workers[id].phase.outcome));
  }

  lemma LearnKeepsInv(w: World, id: nat)
    requires Inv(w) && Enabled(w, LearnCommitted(id))
    ensures Inv(Moved(w, id, Committed(w.workers[id].phase.handle, w.workers[id].phase.outcome)))
  {
    assert WorkerOk(w, w.workers[id]);
    MoveKeepsInv(w, id, Committed(w.workers[id].phase.handle, w.workers[id].phase.outcome));
  }

  lemma HeartbeatKeepsInv(c: Config, w: World, id: nat, clock: Option<int>, applied: bool, acknowledged: bool)
    requires Inv(w) && Enabled(w, Heartbeat(id, clock, applied, acknowledged))
    ensures Inv(Next(c, w, Heartbeat(id, clock, applied, acknowledged)))
  {
    RenewKeepsInv(c, w, id, clock);
    var phase := w.workers[id].phase;
    var reply := Renew(c, w.store, clock, phase.handle);
    var w1 := if applied then w.(store := reply.store) else w;
    assert WorkerOk(w1, w1.workers[id]);
    MoveKeepsInv(w1, id, phase.(renewalFailed := !(applied && acknowledged && reply.result.Ok?)));
  }

  lemma FinishKeepsInv(c: Config, w: World, id: nat, clock: Option<int>, outcome: string, acknowledged: bool)
    requires Inv(w) && Enabled(w, FinishWork(id, clock, outcome, acknowledged))
    ensures Inv(Next(c, w, FinishWork(id, clock, outcome, acknowledged)))
  {
    CompleteKeepsInv(c, w, id, clock, outcome);
    var phase := w.workers[id].phase;
    var reply := Complete(c, w.store, clock, phase.handle, outcome);
    var w1 := w.(store := reply.store);
    assert WorkerOk(w1, w1.workers[id]);
    MoveKeepsInv(w1, id, if reply.result.Ok? && acknowledged then Ready(phase.handle, outcome, phase.renewalFailed)
                         else Failing(phase.handle));
  }

  lemma FinalizeKeepsInv(w: World, id: nat, applied: bool)
    requires Inv(w) && id in w.workers && w.workers[id].phase.Committed?
    ensures Inv(Moved(if applied then w.(store := Confirm(w.store, w.workers[id].phase.handle)) else w,
                      id, Returned(false, w.workers[id].phase.outcome)))
  {
    ConfirmKeepsInv(w, id);
    var phase := w.workers[id].phase;
    var w1 := if applied then w.(store := Confirm(w.store, phase.handle)) else w;
    assert WorkerOk(w, w.workers[id]);
    assert CommittedFor(w1, w.workers[id].request, phase.outcome) by {
      assert phase.handle.token in w1.db && phase.handle.token in w1.submitted;
    }
    MoveKeepsInv(w1, id, Returned(false, phase.outcome));
  }

  lemma {:induction false} RunKeepsInv(c: Config, steps: seq<Step>)
    requires IsRun(c, steps)
    ensures Inv(Run(c, steps))
  {
    if |steps| > 0 {
      RunKeepsInv(c, steps[..|steps| - 1]);
      StepKeepsInv(c, Run(c, steps[..|steps| - 1]), steps[|steps| - 1]);
    }
  }

  // ---- what callers are promised ----

  /** At most one attempt per key ever commits. */
  lemma AtMostOneCommitPerKey(c: Config, steps: seq<Step>, t: string, u: string)
    requires IsRun(c, steps)
    requires var w := Run(c, steps);
             t in w.db && u in w.db && t in w.submitted && u in w.submitted
             && w.submitted[t].request.key == w.submitted[u].request.key
    ensures t == u
  {
    RunKeepsInv(c, steps);
    var w := Run(c, steps);
    assert SubmittedTokenOk(t, w.submitted[t], w.issued, w.doomed, w.store.entries);
    assert SubmittedTokenOk(u, w.submitted[u], w.issued, w.doomed, w.store.entries);
  }

  /** Every outcome a worker returns, fresh or replayed, is the outcome of the one committed
      attempt of its key, which carried the same fingerprint. */
  lemma ReturnedOutcomeIsTheCommittedOne(c: Config, steps: seq<Step>, id: nat, t: string)
    requires IsRun(c, steps)
    requires id in Run(c, steps).workers && Run(c, steps).workers[id].phase.Returned?
    requires t in Run(c, steps).db && t in Run(c, steps).submitted
    requires Run(c, steps).submitted[t].request.key == Run(c, steps).workers[id].request.key
    ensures Run(c, steps).submitted[t]
         == Attempt(Run(c, steps).workers[id].request, Run(c, steps).workers[id].phase.outcome)
  {
    RunKeepsInv(c, steps);
    var w := Run(c, steps);
    assert WorkerOk(w, w.workers[id]);
    var u :| u in w.db && u in w.submitted
      && w.submitted[u] == Attempt(w.workers[id].request, w.workers[id].phase.outcome);
    AtMostOneCommitPerKey(c, steps, t, u);
  }

  /** A worker returns only after an attempt for its request committed. */
  lemma ReturnImpliesCommit(c: Config, steps: seq<Step>, id: nat)
    requires IsRun(c, steps)
    requires id in Run(c, steps).workers && Run(c, steps).workers[id].phase.Returned?
    ensures CommittedFor(Run(c, steps), Run(c, steps).workers[id].request, Run(c, steps).workers[id].phase.outcome)
  {
    RunKeepsInv(c, steps);
    assert WorkerOk(Run(c, steps), Run(c, steps).workers[id]);
  }
}
