/** The in-memory idempotency store: one map of records and one token counter, updated in
    place. Every method is tied to the store functions of Idempotency. */
module InMemoryIdempotencyStores {
  import opened Common
  import opened Idempotency

  class InMemoryIdempotencyStore {
    var entries: map<string, Entry>
    var tokenGeneration: nat
    const config: Config

    /** The abstract value of the store. */
    ghost function Contents(): Store
      reads this
    {
      Store(entries, tokenGeneration)
    }

    constructor (config: Config)
      requires ValidConfig(config)
      ensures this.config == config && Contents() == Store(map[], 0)
    {
      this.config := config;
      entries := map[];
      tokenGeneration := 0;
    }

    /** The claim's token holds the key's unconfirmed record, and its lease has not run out. */
    static predicate Owns(entries: map<string, Entry>, claim: Handle, clock: Option<int>) {
      && clock.Some? && claim.key in entries && !entries[claim.key].Confirmed?
      && entries[claim.key].token == claim.token && clock.value < entries[claim.key].expiresAtMs
    }

    /** `clock` is the reading the injected clock gives, `part` what the token factory gives. */
    method ClaimKey(clock: Option<int>, part: string, key: string, fingerprint: string)
      returns (result: Result<Claim, StoreError>)
      modifies this
      ensures Reply(Contents(), result)
           == Idempotency.ClaimKey(config, old(Contents()), clock, part, key, fingerprint)
      ensures !(result.Ok? && result.value.Claimed?) ==> entries == old(entries)
      ensures (result.Ok? && result.value.Claimed?) <==>
                && clock.Some? && IsDate(clock.value) && IsDate(clock.value + config.leaseDurationMs)
                && part != "" && old(tokenGeneration) < MAX_SAFE_INTEGER
                && if key in old(entries) then
                     && old(entries)[key].Pending? && old(entries)[key].fingerprint == fingerprint
                     && old(entries)[key].expiresAtMs <= clock.value
                   else config.maxEntries.Some? ==> |old(entries)| < config.maxEntries.value
      ensures result == Err(InFlight) <==>
                && clock.Some? && IsDate(clock.value)
                && key in old(entries) && old(entries)[key].fingerprint == fingerprint
                && !old(entries)[key].Confirmed? && clock.value < old(entries)[key].expiresAtMs
      ensures result == Err(KeyReuse) <==>
                && clock.Some? && IsDate(clock.value)
                && key in old(entries) && old(entries)[key].fingerprint != fingerprint
      ensures result.Ok? && result.value.Claimed? ==>
                && (key in old(entries) ==> old(entries)[key].Pending? && old(entries)[key].fingerprint == fingerprint
                                            && clock.value >= old(entries)[key].expiresAtMs)
                && entries == old(entries)[key :=
                     Pending(fingerprint, result.value.handle.token, clock.value + config.leaseDurationMs)]
      ensures result.Ok? && result.value.Completed? <==>
                Now(clock).Ok? && key in old(entries) && old(entries)[key].Confirmed?
                && old(entries)[key].fingerprint == fingerprint
    {
      var now := Now(clock);
      if now.Err? {
        return Err(now.error);
      }
      if key !in entries {
        if config.maxEntries.Some? && |entries| >= config.maxEntries.value {
          return Err(CapacityExceeded);
        }
        result := CreatePending(key, fingerprint, now.value, part);
        return;
      }
      var existing := entries[key];
      if existing.fingerprint != fingerprint {
        return Err(KeyReuse);
      }
      if existing.Confirmed? {
        return Ok(Completed(existing.outcome));
      }
      if now.value < existing.expiresAtMs {
        return Err(InFlight);
      }
      if existing.Staged? {
        return Ok(ReconciliationRequired(
                    Reconciliation(key, fingerprint, existing.token, existing.expiresAtMs)));
      }
      result := CreatePending(key, fingerprint, now.value, part);
    }

    method CreatePending(key: string, fingerprint: string, now: int, part: string)
      returns (result: Result<Claim, StoreError>)
      modifies this
      ensures Reply(Contents(), result)
           == Idempotency.CreatePending(config, old(Contents()), key, fingerprint, now, part)
      ensures result.Err? ==> entries == old(entries)
      ensures result.Ok? ==> old(tokenGeneration) < tokenGeneration <= MAX_SAFE_INTEGER
    {
      if part == "" {
        return Err(InvalidTokenPart);
      }
      tokenGeneration := NextGeneration(tokenGeneration);
      if tokenGeneration > MAX_SAFE_INTEGER {
        return Err(GenerationExhausted);
      }
      var token := Token(tokenGeneration, part);
      var expiresAtMs := now + config.leaseDurationMs;
      if !IsDate(expiresAtMs) {
        return Err(InvalidLeaseDate);
      }
      entries := entries[key := Pending(fingerprint, token, expiresAtMs)];
      result := Ok(Claimed(Handle(key, token)));
    }

    method Complete(clock: Option<int>, claim: Handle, outcome: string) returns (result: Result<(), StoreError>)
      modifies this
      ensures Reply(Contents(), result)
           == Idempotency.Complete(config, old(Contents()), clock, claim, outcome)
      ensures result.Err? ==> entries == old(entries)
      ensures result.Ok? <==>
                && Owns(old(entries), claim, clock) && old(entries)[claim.key].Pending?
                && IsDate(clock.value) && IsDate(clock.value + config.leaseDurationMs)
      ensures result.Ok? ==>
                var fingerprint := old(entries)[claim.key].fingerprint;
                entries == old(entries)[claim.key :=
                  Staged(fingerprint, claim.token, clock.value + config.leaseDurationMs, outcome)]
      ensures result == Err(CompletionWithoutClaim) <==>
                clock.Some? && IsDate(clock.value) && claim.key !in old(entries)
    {
      var now := Now(clock);
      if now.Err? {
        return Err(now.error);
      }
      if claim.key !in entries {
        return Err(CompletionWithoutClaim);
      }
      var existing := entries[claim.key];
      if !existing.Pending? || existing.token != claim.token || now.value >= existing.expiresAtMs {
        return Err(ClaimLost);
      }
      var expiresAtMs := now.value + config.leaseDurationMs;
      if !IsDate(expiresAtMs) {
        return Err(InvalidLeaseDate);
      }
      entries := entries[claim.key := Staged(existing.fingerprint, existing.token, expiresAtMs, outcome)];
      result := Ok(());
    }

    method Renew(clock: Option<int>, claim: Handle) returns (result: Result<int, StoreError>)
      modifies this
      ensures Reply(Contents(), result) == Idempotency.Renew(config, old(Contents()), clock, claim)
      ensures result.Ok? <==>
                && Owns(old(entries), claim, clock)
                && IsDate(clock.value) && IsDate(clock.value + config.leaseDurationMs)
      ensures result.Ok? ==>
                && result.value == clock.value + config.leaseDurationMs
                && entries == old(entries)[claim.key := old(entries)[claim.key].(expiresAtMs := result.value)]
      ensures result.Err? ==> entries == old(entries)
    {
      var now := Now(clock);
      if now.Err? {
        return Err(now.error);
      }
      if claim.key !in entries {
        return Err(ClaimLost);
      }
      var existing := entries[claim.key];
      if existing.Confirmed? || existing.token != claim.token || now.value >= existing.expiresAtMs {
        return Err(ClaimLost);
      }
      var expiresAtMs := now.value + config.leaseDurationMs;
      if !IsDate(expiresAtMs) {
        return Err(InvalidLeaseDate);
      }
      entries := entries[claim.key := existing.(expiresAtMs := expiresAtMs)];
      result := Ok(expiresAtMs);
    }

    method Confirm(claim: Handle)
      modifies this
      ensures Contents() == Idempotency.Confirm(old(Contents()), claim)
      ensures tokenGeneration == old(tokenGeneration)
      ensures entries ==
              if claim.key in old(entries) && old(entries)[claim.key].Staged?
                 && old(entries)[claim.key].token == claim.token
              then old(entries)[claim.key := Confirmed(old(entries)[claim.key].fingerprint, claim.token,
                                                       old(entries)[claim.key].outcome)]
              else old(entries)
    {
      if claim.key in entries {
        var existing := entries[claim.key];
        if existing.Staged? && existing.token == claim.token {
          entries := entries[claim.key := Confirmed(existing.fingerprint, existing.token, existing.outcome)];
        }
      }
    }

    method Abandon(claim: Handle)
      modifies this
      ensures Contents() == Idempotency.Abandon(old(Contents()), claim)
      ensures entries == old(entries) || entries == old(entries) - {claim.key}
      ensures claim.key in old(entries) && claim.key !in entries <==>
                claim.key in old(entries) && !old(entries)[claim.key].Confirmed?
                && old(entries)[claim.key].token == claim.token
    {
      if claim.key in entries {
        var existing := entries[claim.key];
        if !existing.Confirmed? && existing.token == claim.token {
          entries := entries - {claim.key};
        }
      }
    }

    method Reconcile(clock: Option<int>, r: Reconciliation, decision: Decision)
      returns (result: Result<(), StoreError>)
      modifies this
      ensures Reply(Contents(), result) == Idempotency.Reconcile(old(Contents()), clock, r, decision)
      ensures result.Err? ==> entries == old(entries)
      ensures result.Ok? <==>
                && clock.Some? && IsDate(clock.value) && clock.value >= r.expiredAtMs
                && r.key in old(entries) && old(entries)[r.key].Staged?
                && old(entries)[r.key] == Staged(r.fingerprint, r.token, r.expiredAtMs, old(entries)[r.key].outcome)
      ensures result.Ok? ==>
                entries == if decision.WasCommitted?
                           then old(entries)[r.key := Confirmed(r.fingerprint, r.token, old(entries)[r.key].outcome)]
                           else old(entries) - {r.key}
    {
      if r.key !in entries {
        return Err(ClaimLost);
      }
      var existing := entries[r.key];
      if !existing.Staged? || existing.token != r.token || existing.fingerprint != r.fingerprint
         || existing.expiresAtMs != r.expiredAtMs {
        return Err(ClaimLost);
      }
      var now := Now(clock);
      if now.Err? {
        return Err(now.error);
      }
      if now.value < existing.expiresAtMs {
        return Err(ClaimLost);
      }
      if decision.WasCommitted? {
        entries := entries[r.key := Confirmed(existing.fingerprint, existing.token, existing.outcome)];
      } else {
        entries := entries - {r.key};
      }
      result := Ok(());
    }
  }
}
