/** The leased idempotency store as pure functions: pending, staged and confirmed records,
    owned by store-minted tokens. */
module Idempotency {
  import opened Common
  import opened Decimals

  datatype Entry =
    | Pending(fingerprint: string, token: string, expiresAtMs: int)
    | Staged(fingerprint: string, token: string, expiresAtMs: int, outcome: string)
    | Confirmed(fingerprint: string, token: string, outcome: string)

  datatype Store = Store(entries: map<string, Entry>, tokenGeneration: nat)

  datatype Config = Config(leaseDurationMs: nat, renewAfterMs: nat, maxEntries: Option<nat>)

  datatype Handle = Handle(key: string, token: string)

  datatype Reconciliation = Reconciliation(key: string, fingerprint: string, token: string, expiredAtMs: int)

  datatype Claim =
    | Claimed(handle: Handle)
    | Completed(outcome: string)
    | ReconciliationRequired(reconciliation: Reconciliation)

  datatype StoreError =
    | KeyReuse
    | InFlight
    | ClaimLost
    | CompletionWithoutClaim
    | CapacityExceeded
    | InvalidClock
    | InvalidTokenPart
    | GenerationExhausted
    | InvalidLeaseDate

  /** A call's result together with the store it leaves. */
  datatype Reply<T> = Reply(store: Store, result: Result<T, StoreError>)

  const MAX_TIMER_MS: int := 2147483647
  const MAX_SAFE_INTEGER: int := 9007199254740991
  const MAX_DATE_MS: int := 8640000000000000

  predicate ValidConfig(c: Config) {
    && 0 < c.leaseDurationMs <= MAX_TIMER_MS
    && 0 < c.renewAfterMs < c.leaseDurationMs
    && (c.maxEntries.Some? ==> 0 < c.maxEntries.value)
  }

  predicate IsDate(ms: int) { -MAX_DATE_MS <= ms <= MAX_DATE_MS }

  /** The clock reading; None stands for an invalid Date. */
  function Now(clock: Option<int>): Result<int, StoreError> {
    if clock.Some? && IsDate(clock.value) then Ok(clock.value) else Err(InvalidClock)
  }

  function Token(generation: nat, part: string): string {
    ToDecimal(generation) + ":" + part
  }

  /** Incrementing a number past the safe range leaves it where it is. */
  function NextGeneration(g: nat): nat {
    if g > MAX_SAFE_INTEGER then g else g + 1
  }

  function CreatePending(c: Config, s: Store, key: string, fingerprint: string, now: int, part: string): Reply<Claim> {
    var generation := NextGeneration(s.tokenGeneration);
    var expiresAtMs := now + c.leaseDurationMs;
    if part == "" then Reply(s, Err(InvalidTokenPart))
    else if generation > MAX_SAFE_INTEGER then Reply(s.(tokenGeneration := generation), Err(GenerationExhausted))
    else if !IsDate(expiresAtMs) then Reply(s.(tokenGeneration := generation), Err(InvalidLeaseDate))
    else
      var token := Token(generation, part);
      Reply(Store(s.entries[key := Pending(fingerprint, token, expiresAtMs)], generation),
            Ok(Claimed(Handle(key, token))))
  }

  function ClaimKey(c: Config, s: Store, clock: Option<int>, part: string, key: string, fingerprint: string)
    : Reply<Claim>
  {
    var now := Now(clock);
    if now.Err? then Reply(s, Err(now.error))
    else if key !in s.entries then
      if c.maxEntries.Some? && |s.entries| >= c.maxEntries.value then Reply(s, Err(CapacityExceeded))
      else CreatePending(c, s, key, fingerprint, now.value, part)
    else
      var existing := s.entries[key];
      if existing.fingerprint != fingerprint then Reply(s, Err(KeyReuse))
      else if existing.Confirmed? then Reply(s, Ok(Completed(existing.outcome)))
      else if now.value < existing.expiresAtMs then Reply(s, Err(InFlight))
      else if existing.Staged? then
        Reply(s, Ok(ReconciliationRequired(Reconciliation(key, fingerprint, existing.token, existing.expiresAtMs))))
      else CreatePending(c, s, key, fingerprint, now.value, part)
  }

  function Complete(c: Config, s: Store, clock: Option<int>, claim: Handle, outcome: string): Reply<()> {
    var now := Now(clock);
    if now.Err? then Reply(s, Err(now.error))
    else if claim.key !in s.entries then Reply(s, Err(CompletionWithoutClaim))
    else
      var existing := s.entries[claim.key];
      if !existing.Pending? || existing.token != claim.token || now.value >= existing.expiresAtMs then
        Reply(s, Err(ClaimLost))
      else if !IsDate(now.value + c.leaseDurationMs) then Reply(s, Err(InvalidLeaseDate))
      else
        var staged := Staged(existing.fingerprint, existing.token, now.value + c.leaseDurationMs, outcome);
        Reply(s.(entries := s.entries[claim.key := staged]), Ok(()))
  }

  function Renew(c: Config, s: Store, clock: Option<int>, claim: Handle): Reply<int> {
    var now := Now(clock);
    if now.Err? then Reply(s, Err(now.error))
    else if claim.key !in s.entries then Reply(s, Err(ClaimLost))
    else
      var existing := s.entries[claim.key];
      if existing.Confirmed? || existing.token != claim.token || now.value >= existing.expiresAtMs then
        Reply(s, Err(ClaimLost))
      else
        var expiresAtMs := now.value + c.leaseDurationMs;
        if !IsDate(expiresAtMs) then Reply(s, Err(InvalidLeaseDate))
        else Reply(s.(entries := s.entries[claim.key := existing.(expiresAtMs := expiresAtMs)]), Ok(expiresAtMs))
  }

  function Confirm(s: Store, claim: Handle): Store {
    if claim.key in s.entries && s.entries[claim.key].Staged? && s.entries[claim.key].token == claim.token then
      var e := s.entries[claim.key];
      s.(entries := s.entries[claim.key := Confirmed(e.fingerprint, e.token, e.outcome)])
    else s
  }

  function Abandon(s: Store, claim: Handle): Store {
    if claim.key in s.entries && !s.entries[claim.key].Confirmed? && s.entries[claim.key].token == claim.token then
      s.(entries := s.entries - {claim.key})
    else s
  }

  datatype Decision = WasCommitted | WasNotCommitted

  function Reconcile(s: Store, clock: Option<int>, r: Reconciliation, decision: Decision): Reply<()> {
    if r.key !in s.entries then Reply(s, Err(ClaimLost))
    else
      var e := s.entries[r.key];
      if !e.Staged? || e.token != r.token || e.fingerprint != r.fingerprint || e.expiresAtMs != r.expiredAtMs then
        Reply(s, Err(ClaimLost))
      else if Now(clock).Err? then Reply(s, Err(InvalidClock))
      else if Now(clock).value < e.expiresAtMs then Reply(s, Err(ClaimLost))
      else if decision.WasCommitted? then
        Reply(s.(entries := s.entries[r.key := Confirmed(e.fingerprint, e.token, e.outcome)]), Ok(()))
      else Reply(s.(entries := s.entries - {r.key}), Ok(()))
  }
}
