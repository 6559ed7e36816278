/** What the leased store gets done: a claimed command that completes within its lease and is
    confirmed answers every later claim, whatever others call in between; a reconciliation a claim
    hands out is one the store accepts; an undisturbed worker returns and later ones replay. */
module IdempotencyLiveness {
  import opened Common
  import opened Idempotency
  import opened IdempotencyTokens
  import opened IdempotencyProtocol

  // ---- confirmed commands ----

  lemma {:induction false} ConfirmedStays(c: Config, s: Store, calls: seq<Call>, key: string)
    requires key in s.entries && s.entries[key].Confirmed?
    ensures key in RunFrom(c, s, calls).entries && RunFrom(c, s, calls).entries[key] == s.entries[key]
  {
    if |calls| > 0 {
      ConfirmedStays(c, s, calls[..|calls| - 1], key);
      ConfirmedIsPermanent(c, RunFrom(c, s, calls[..|calls| - 1]), calls[|calls| - 1], key);
    }
  }

  /** From then on, after any calls whatever and at any valid clock reading, a claim of the command
      answers with its outcome, and a claim of another command under the key is refused. */
  lemma ConfirmedAnswers(c: Config, s: Store, key: string, fingerprint: string, token: string, outcome: string,
                         calls: seq<Call>, now: int, part: string, claimed: string)
    requires key in s.entries && s.entries[key] == Confirmed(fingerprint, token, outcome) && IsDate(now)
    ensures var later := RunFrom(c, s, calls);
            ClaimKey(c, later, Some(now), part, key, claimed)
            == Reply(later, if claimed == fingerprint then Ok(Completed(outcome)) else Err(KeyReuse))
  {
    ConfirmedStays(c, s, calls, key);
  }

  /** A granted claim completes within its lease, whatever others call in between. */
  lemma ClaimedCompletes(c: Config, s: Store, key: string, fingerprint: string, start: int, part: string,
                         others: seq<Call>, now: int, outcome: string)
    requires ValidConfig(c)
    requires ClaimKey(c, s, Some(start), part, key, fingerprint).result.Ok?
    requires ClaimKey(c, s, Some(start), part, key, fingerprint).result.value.Claimed?
    requires var s1 := ClaimKey(c, s, Some(start), part, key, fingerprint).store;
             key in s1.entries && !s1.entries[key].Confirmed?
             && forall i :: 0 <= i < |others| ==> !MayTouch(s1, key, others[i])
    requires IsDate(now) && now < start + c.leaseDurationMs && IsDate(now + c.leaseDurationMs)
    ensures var claimed := ClaimKey(c, s, Some(start), part, key, fingerprint);
            var h := claimed.result.value.handle;
            var r := Complete(c, RunFrom(c, claimed.store, others), Some(now), h, outcome);
            && h.key == key && r.result.Ok?
            && key in r.store.entries
            && r.store.entries[key] == Staged(fingerprint, h.token, now + c.leaseDurationMs, outcome)
  {
    var s1 := ClaimKey(c, s, Some(start), part, key, fingerprint).store;
    assert s1.entries[key].Pending? && s1.entries[key].fingerprint == fingerprint;
    LiveLeaseIsExclusive(c, s1, key, others);
  }

  /** Confirming the staged outcome with its token confirms exactly it, whatever others call in between. */
  lemma StagedConfirms(c: Config, s: Store, key: string, fingerprint: string, token: string, expiresAtMs: int,
                       outcome: string, others: seq<Call>)
    requires key in s.entries && s.entries[key] == Staged(fingerprint, token, expiresAtMs, outcome)
    requires forall i :: 0 <= i < |others| ==> !MayTouch(s, key, others[i])
    ensures var s' := Confirm(RunFrom(c, s, others), Handle(key, token));
            key in s'.entries && s'.entries[key] == Confirmed(fingerprint, token, outcome)
  {
    LiveLeaseIsExclusive(c, s, key, others);
  }

  /** Claim, complete within the lease, confirm: the command is confirmed with its outcome, and from
      then on, after any calls, every claim of it answers with that outcome. */
  lemma ConfirmedCommandIsAnswered(c: Config, s: Store, key: string, fingerprint: string, start: int, part: string,
                                   now: int, outcome: string, calls: seq<Call>, later: int, part': string)
    requires ValidConfig(c)
    requires ClaimKey(c, s, Some(start), part, key, fingerprint).result.Ok?
    requires ClaimKey(c, s, Some(start), part, key, fingerprint).result.value.Claimed?
    requires IsDate(now) && now < start + c.leaseDurationMs && IsDate(now + c.leaseDurationMs) && IsDate(later)
    ensures var claimed := ClaimKey(c, s, Some(start), part, key, fingerprint);
            var h := claimed.result.value.handle;
            var completed := Complete(c, claimed.store, Some(now), h, outcome);
            var confirmed := Confirm(completed.store, h);
            && completed.result.Ok?
            && key in confirmed.entries && confirmed.entries[key] == Confirmed(fingerprint, h.token, outcome)
            && ClaimKey(c, RunFrom(c, confirmed, calls), Some(later), part', key, fingerprint).result
               == Ok(Completed(outcome))
  {
    var claimed := ClaimKey(c, s, Some(start), part, key, fingerprint);
    var h := claimed.result.value.handle;
    assert key in claimed.store.entries && claimed.store.entries[key].Pending?;
    ClaimedCompletes(c, s, key, fingerprint, start, part, [], now, outcome);
    var completed := Complete(c, claimed.store, Some(now), h, outcome).store;
    StagedConfirms(c, completed, key, fingerprint, h.token, now + c.leaseDurationMs, outcome, []);
    ConfirmedAnswers(c, Confirm(completed, h), key, fingerprint, h.token, outcome, calls, later, part', fingerprint);
  }

  // ---- granted claims ----

  /** A claim is granted exactly for a free key with room, or an expired pending record of the same
      command, provided a token can be minted and the lease end is a date. */
  lemma ClaimGrantedIff(c: Config, s: Store, clock: Option<int>, part: string, key: string, fingerprint: string)
    ensures var r := ClaimKey(c, s, clock, part, key, fingerprint).result;
            (r.Ok? && r.value.Claimed?) <==>
            && clock.Some? && IsDate(clock.value) && IsDate(clock.value + c.leaseDurationMs)
            && part != "" && s.tokenGeneration < MAX_SAFE_INTEGER
            && (if key in s.entries then
                  && s.entries[key].Pending? && s.entries[key].fingerprint == fingerprint
                  && s.entries[key].expiresAtMs <= clock.value
                else c.maxEntries.Some? ==> |s.entries| < c.maxEntries.value)
    ensures ClaimKey(c, s, clock, part, key, fingerprint).result == Err(InFlight) <==>
            && clock.Some? && IsDate(clock.value)
            && key in s.entries && s.entries[key].fingerprint == fingerprint && !s.entries[key].Confirmed?
            && clock.value < s.entries[key].expiresAtMs
  {
  }

  // ---- reconciliation ----

  /** The reconciliation a claim hands out is one the store accepts, from the time of the claim on:
      decided committed, later claims answer with the staged outcome; decided not committed, the key
      is free again. */
  lemma ReconciliationIsAccepted(c: Config, s: Store, now: int, part: string, key: string, fingerprint: string,
                                 r: Reconciliation, later: int, calls: seq<Call>, end: int, part': string)
    requires ClaimKey(c, s, Some(now), part, key, fingerprint).result == Ok(ReconciliationRequired(r))
    requires IsDate(later) && now <= later && IsDate(end)
    ensures key in s.entries && s.entries[key].Staged?
    ensures var settled := Reconcile(s, Some(later), r, WasCommitted);
            && settled.result == Ok(())
            && ClaimKey(c, RunFrom(c, settled.store, calls), Some(end), part', key, fingerprint).result
               == Ok(Completed(s.entries[key].outcome))
    ensures Reconcile(s, Some(later), r, WasNotCommitted) == Reply(s.(entries := s.entries - {key}), Ok(()))
  {
    var e := s.entries[key];
    var settled := Reconcile(s, Some(later), r, WasCommitted);
    assert settled.store.entries[key] == Confirmed(fingerprint, e.token, e.outcome);
    ConfirmedAnswers(c, settled.store, key, fingerprint, e.token, e.outcome, calls, end, part', fingerprint);
  }

  // ---- workers ----

  /** The world after the steps, if each was enabled in turn. */
  ghost function Takes(c: Config, w: World, steps: seq<Step>): Option<World> {
    if |steps| == 0 then Some(w) else
    var before := Takes(c, w, steps[..|steps| - 1]);
    if before.Some? && Enabled(before.value, steps[|steps| - 1]) then
      Some(Next(c, before.value, steps[|steps| - 1]))
    else None
  }

  lemma TakesOneMore(c: Config, w: World, steps: seq<Step>, now: World, step: Step)
    requires Takes(c, w, steps) == Some(now) && Enabled(now, step)
    ensures Takes(c, w, steps + [step]) == Some(Next(c, now, step))
  {
    assert (steps + [step])[..|steps|] == steps;
  }

  /** Worker `id` serves the request in this phase, and everything else is as given. */
  ghost predicate Stands(w: World, id: nat, request: Request, phase: Phase, store: Store, was: World) {
    && w.store == store && w.doomed == was.doomed
    && id in w.workers && w.workers[id] == Worker(request, phase)
    && forall other :: other != id ==> PhaseOf(w, other) == PhaseOf(was, other)
  }

  lemma WorkerStarts(c: Config, w: World, id: nat, request: Request, clock: Option<int>, part: string)
    requires PhaseOf(w, id).Idle?
    ensures var reply := ClaimKey(c, w.store, clock, part, request.key, request.fingerprint);
            var step := Start(id, request, clock, part);
            && Enabled(w, step)
            && Stands(Next(c, w, step), id, request, AfterClaim(reply.result), reply.store, w)
  {
    hide ClaimKey;
  }

  lemma WorkerFinishes(c: Config, w: World, id: nat, request: Request, h: Handle, now: int, outcome: string, was: World)
    requires Stands(w, id, request, Working(h, false), w.store, was)
    requires Complete(c, w.store, Some(now), h, outcome).result.Ok?
    ensures var step := FinishWork(id, Some(now), outcome, true);
            && Enabled(w, step)
            && Stands(Next(c, w, step), id, request, Ready(h, outcome, false),
                      Complete(c, w.store, Some(now), h, outcome).store, was)
  {
    hide Complete;
  }

  lemma WorkerSubmits(c: Config, w: World, id: nat, request: Request, h: Handle, outcome: string, was: World)
    requires Stands(w, id, request, Ready(h, outcome, false), w.store, was)
    ensures var step := Submit(id);
            && Enabled(w, step) && h.token in Next(c, w, step).submitted
            && Stands(Next(c, w, step), id, request, Committing(h, outcome), w.store, was)
  {
  }

  lemma WorkerLands(c: Config, w: World, id: nat, request: Request, h: Handle, outcome: string, was: World)
    requires Stands(w, id, request, Committing(h, outcome), w.store, was)
    requires h.token in w.submitted && h.token !in was.doomed
    ensures Enabled(w, Land(h.token)) && h.token in Next(c, w, Land(h.token)).db
    ensures Stands(Next(c, w, Land(h.token)), id, request, Committing(h, outcome), w.store, was)
  {
  }

  lemma WorkerLearns(c: Config, w: World, id: nat, request: Request, h: Handle, outcome: string, was: World)
    requires Stands(w, id, request, Committing(h, outcome), w.store, was) && h.token in w.db
    ensures Enabled(w, LearnCommitted(id))
    ensures Stands(Next(c, w, LearnCommitted(id)), id, request, Committed(h, outcome), w.store, was)
  {
  }

  lemma WorkerConfirms(c: Config, w: World, id: nat, request: Request, h: Handle, outcome: string, was: World)
    requires Stands(w, id, request, Committed(h, outcome), w.store, was)
    ensures Enabled(w, Finalize(id, true))
    ensures Stands(Next(c, w, Finalize(id, true)), id, request, Returned(false, outcome), Confirm(w.store, h), was)
  {
    hide Confirm;
  }

  /** The steps of a worker whose claim is granted and whose calls and transaction all succeed. */
  function FreshSteps(id: nat, request: Request, start: int, part: string, now: int, outcome: string, token: string)
    : seq<Step>
  {
    [Start(id, request, Some(start), part), FinishWork(id, Some(now), outcome, true), Submit(id), Land(token),
     LearnCommitted(id), Finalize(id, true)]
  }

  lemma FreshWorkerReturns(c: Config, w: World, id: nat, request: Request, start: int, part: string, now: int,
                           outcome: string, h: Handle) returns (done: World)
    requires PhaseOf(w, id).Idle? && h.token !in w.doomed
    requires var claimed := ClaimKey(c, w.store, Some(start), part, request.key, request.fingerprint);
             claimed.result == Ok(Claimed(h)) && Complete(c, claimed.store, Some(now), h, outcome).result.Ok?
    ensures Takes(c, w, FreshSteps(id, request, start, part, now, outcome, h.token)) == Some(done)
    ensures var claimed := ClaimKey(c, w.store, Some(start), part, request.key, request.fingerprint);
            Stands(done, id, request, Returned(false, outcome),
                   Confirm(Complete(c, claimed.store, Some(now), h, outcome).store, h), w)
  {
    hide ClaimKey, Complete, Confirm, Next, Enabled, Stands;
    var steps := FreshSteps(id, request, start, part, now, outcome, h.token);
    assert steps[..0] + [steps[0]] == steps[..1] && steps[..1] + [steps[1]] == steps[..2];
    assert steps[..2] + [steps[2]] == steps[..3] && steps[..3] + [steps[3]] == steps[..4];
    assert steps[..4] + [steps[4]] == steps[..5] && steps[..5] + [steps[5]] == steps[..6] == steps;
    WorkerStarts(c, w, id, request, Some(start), part);
    TakesOneMore(c, w, steps[..0], w, steps[0]);
    var w1 := Next(c, w, steps[0]);
    SameStore(w1, id, request, w);
    WorkerFinishes(c, w1, id, request, h, now, outcome, w);
    TakesOneMore(c, w, steps[..1], w1, steps[1]);
    var w2 := Next(c, w1, steps[1]);
    SameStore(w2, id, request, w);
    WorkerSubmits(c, w2, id, request, h, outcome, w);
    TakesOneMore(c, w, steps[..2], w2, steps[2]);
    var w3 := Next(c, w2, steps[2]);
    SameStore(w3, id, request, w);
    WorkerLands(c, w3, id, request, h, outcome, w);
    TakesOneMore(c, w, steps[..3], w3, steps[3]);
    var w4 := Next(c, w3, steps[3]);
    SameStore(w4, id, request, w);
    WorkerLearns(c, w4, id, request, h, outcome, w);
    TakesOneMore(c, w, steps[..4], w4, steps[4]);
    var w5 := Next(c, w4, steps[4]);
    SameStore(w5, id, request, w);
    WorkerConfirms(c, w5, id, request, h, outcome, w);
    TakesOneMore(c, w, steps[..5], w5, steps[5]);
    done := Next(c, w5, steps[5]);
  }

  lemma SameStore(w: World, id: nat, request: Request, was: World)
    ensures forall phase, store :: Stands(w, id, request, phase, store, was) ==> store == w.store
  {
  }

  lemma ReplayReturns(c: Config, w: World, id: nat, request: Request, clock: Option<int>, part: string, outcome: string)
    requires PhaseOf(w, id).Idle?
    requires ClaimKey(c, w.store, clock, part, request.key, request.fingerprint).result == Ok(Completed(outcome))
    ensures var replayed := Takes(c, w, [Start(id, request, clock, part), ReturnReplay(id)]);
            replayed.Some? && PhaseOf(replayed.value, id) == Returned(true, outcome)
  {
    var s1, s2 := Start(id, request, clock, part), ReturnReplay(id);
    WorkerStarts(c, w, id, request, clock, part);
    hide ClaimKey;
    var w1 := Next(c, w, s1);
    TakesOneMore(c, w, [], w, s1);
    TakesOneMore(c, w, [s1], w1, s2);
    assert [] + [s1] == [s1] && [s1] + [s2] == [s1, s2];
  }

  /** An idle worker whose claim is granted and whose transaction the database lets commit, working
      within its lease without a lost call, returns its own outcome as fresh; after that every idle
      worker with the same request replays that outcome, at any clock reading. */
  lemma UndisturbedWorkerReturns(c: Config, w: World, id: nat, request: Request, start: int, part: string,
                                 now: int, outcome: string, h: Handle, other: nat, later: int, part': string)
    requires ValidConfig(c) && PhaseOf(w, id).Idle? && PhaseOf(w, other).Idle? && other != id
    requires ClaimKey(c, w.store, Some(start), part, request.key, request.fingerprint).result == Ok(Claimed(h))
    requires IsDate(now) && now < start + c.leaseDurationMs && IsDate(now + c.leaseDurationMs) && IsDate(later)
    requires h.token !in w.doomed
    ensures var done := Takes(c, w, FreshSteps(id, request, start, part, now, outcome, h.token));
            && done.Some? && PhaseOf(done.value, id) == Returned(false, outcome)
            && var replayed := Takes(c, done.value, [Start(other, request, Some(later), part'), ReturnReplay(other)]);
               replayed.Some? && PhaseOf(replayed.value, other) == Returned(true, outcome)
  {
    ConfirmedCommandIsAnswered(c, w.store, request.key, request.fingerprint, start, part, now, outcome, [], later,
                               part');
    hide ClaimKey, Complete, Confirm;
    var done := FreshWorkerReturns(c, w, id, request, start, part, now, outcome, h);
    ReplayReturns(c, done, other, request, Some(later), part', outcome);
  }
}
