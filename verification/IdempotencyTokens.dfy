/** Ownership of one leased store over any sequence of calls, under any clock and any
    interleaving: distinct tokens, powerless superseded tokens, permanent confirmed records. */
module IdempotencyTokens {
  import opened Common
  import opened Decimals
  import opened Idempotency

  lemma TokenIsInjective(g1: nat, p1: string, g2: nat, p2: string)
    requires Token(g1, p1) == Token(g2, p2)
    ensures g1 == g2
  {
    assert ToDecimal(g1) + [':'] + p1 == ToDecimal(g2) + [':'] + p2;
    DigitPrefixIsUnique(ToDecimal(g1), p1, ToDecimal(g2), p2, ':');
    DecimalIsInjective(g1, g2);
  }

  /** One call on the store; handles and reconciliations are arbitrary, forged ones included. */
  datatype Call =
    | CallClaim(clock: Option<int>, part: string, key: string, fingerprint: string)
    | CallComplete(clock: Option<int>, handle: Handle, outcome: string)
    | CallRenew(clock: Option<int>, handle: Handle)
    | CallConfirm(handle: Handle)
    | CallAbandon(handle: Handle)
    | CallReconcile(clock: Option<int>, reconciliation: Reconciliation, decision: Decision)

  function After(c: Config, s: Store, call: Call): Store {
    match call
    case CallClaim(clock, part, key, fp) => ClaimKey(c, s, clock, part, key, fp).store
    case CallComplete(clock, h, outcome) => Complete(c, s, clock, h, outcome).store
    case CallRenew(clock, h) => Renew(c, s, clock, h).store
    case CallConfirm(h) => Confirm(s, h)
    case CallAbandon(h) => Abandon(s, h)
    case CallReconcile(clock, r, d) => Reconcile(s, clock, r, d).store
  }

  /** The handle this call mints, if it mints one. */
  function Minted(c: Config, s: Store, call: Call): Option<Handle> {
    if call.CallClaim? then
      var r := ClaimKey(c, s, call.clock, call.part, call.key, call.fingerprint).result;
      if r.Ok? && r.value.Claimed? then Some(r.value.handle) else None
    else None
  }

  /** Every handle issued so far, in order, with the generation inside each token. */
  ghost predicate IssuedInOrder(s: Store, issued: seq<Handle>, generations: seq<nat>) {
    && |issued| == |generations|
    && (forall i :: 0 <= i < |issued| ==>
        HasGeneration(issued[i].token, generations[i]) && generations[i] <= s.tokenGeneration)
    && (forall i, j :: 0 <= i < j < |issued| ==> generations[i] < generations[j])
  }

  ghost predicate HasGeneration(token: string, g: nat) {
    exists part :: token == Token(g, part)
  }

  /** Each stored entry belongs to the latest token issued for its key. */
  ghost predicate OwnedByLatest(s: Store, issued: seq<Handle>) {
    forall k :: k in s.entries ==> exists i: nat :: IsLatest(issued, i, k) && issued[i].token == s.entries[k].token
  }

  ghost predicate IsLatest(issued: seq<Handle>, i: nat, key: string) {
    && i < |issued| && issued[i].key == key
    && forall j :: i < j < |issued| ==> issued[j].key != key
  }

  ghost predicate TokenInv(s: Store, issued: seq<Handle>, generations: seq<nat>) {
    IssuedInOrder(s, issued, generations) && OwnedByLatest(s, issued)
  }

  lemma MintingIsFresh(c: Config, s: Store, call: Call)
    ensures Minted(c, s, call).Some? ==>
              && After(c, s, call).tokenGeneration == s.tokenGeneration + 1
              && HasGeneration(Minted(c, s, call).value.token, s.tokenGeneration + 1)
              && Minted(c, s, call).value.key in After(c, s, call).entries
              && After(c, s, call).entries[Minted(c, s, call).value.key].token == Minted(c, s, call).value.token
    ensures After(c, s, call).tokenGeneration >= s.tokenGeneration
    ensures forall k :: k in After(c, s, call).entries ==>
              || (Minted(c, s, call).Some? && Minted(c, s, call).value.key == k)
              || (k in s.entries && After(c, s, call).entries[k].token == s.entries[k].token)
  {
  }

  /** The issued handles after a call. */
  function IssuedAfter(c: Config, s: Store, call: Call, issued: seq<Handle>): seq<Handle> {
    var h := Minted(c, s, call);
    if h.Some? then issued + [h.value] else issued
  }

  lemma CallKeepsOwners(c: Config, s: Store, call: Call, issued: seq<Handle>)
    requires OwnedByLatest(s, issued)
    ensures OwnedByLatest(After(c, s, call), IssuedAfter(c, s, call, issued))
  {
    var s', issued' := After(c, s, call), IssuedAfter(c, s, call, issued);
    var h := Minted(c, s, call);
    MintingIsFresh(c, s, call);
    forall k | k in s'.entries
      ensures exists i: nat :: IsLatest(issued', i, k) && issued'[i].token == s'.entries[k].token {
      if h.Some? && h.value.key == k {
        assert IsLatest(issued', |issued|, k);
      } else {
        var i: nat :| IsLatest(issued, i, k) && issued[i].token == s.entries[k].token;
        assert IsLatest(issued', i, k);
      }
    }
  }

  lemma CallKeepsOrder(c: Config, s: Store, call: Call, issued: seq<Handle>, generations: seq<nat>)
    returns (generations': seq<nat>)
    requires IssuedInOrder(s, issued, generations)
    ensures IssuedInOrder(After(c, s, call), IssuedAfter(c, s, call, issued), generations')
  {
    MintingIsFresh(c, s, call);
    generations' := if Minted(c, s, call).Some? then generations + [s.tokenGeneration + 1] else generations;
  }

  lemma IssuedAreDistinct(s: Store, issued: seq<Handle>, generations: seq<nat>, i: nat, j: nat)
    requires IssuedInOrder(s, issued, generations) && i < j < |issued|
    ensures issued[i].token != issued[j].token
  {
    var p :| issued[i].token == Token(generations[i], p);
    var q :| issued[j].token == Token(generations[j], q);
    if issued[i].token == issued[j].token {
      TokenIsInjective(generations[i], p, generations[j], q);
    }
  }

  // ---- whole runs of calls ----

  const FRESH := Store(map[], 0)

  function RunCalls(c: Config, calls: seq<Call>): Store {
    if |calls| == 0 then FRESH else After(c, RunCalls(c, calls[..|calls| - 1]), calls[|calls| - 1])
  }

  function Issued(c: Config, calls: seq<Call>): seq<Handle> {
    if |calls| == 0 then []
    else IssuedAfter(c, RunCalls(c, calls[..|calls| - 1]), calls[|calls| - 1], Issued(c, calls[..|calls| - 1]))
  }

  lemma {:induction false} RunKeepsTokens(c: Config, calls: seq<Call>) returns (generations: seq<nat>)
    ensures TokenInv(RunCalls(c, calls), Issued(c, calls), generations)
  {
    if |calls| == 0 {
      generations := [];
    } else {
      var init, call := calls[..|calls| - 1], calls[|calls| - 1];
      var before := RunKeepsTokens(c, init);
      generations := CallKeepsOrder(c, RunCalls(c, init), call, Issued(c, init), before);
      CallKeepsOwners(c, RunCalls(c, init), call, Issued(c, init));
    }
  }

  /** Every token issued over a run is distinct from every other one, whatever the key. */
  lemma EveryTokenIsDistinct(c: Config, calls: seq<Call>, i: nat, j: nat)
    requires i < |Issued(c, calls)| && j < |Issued(c, calls)| && i != j
    ensures Issued(c, calls)[i].token != Issued(c, calls)[j].token
  {
    var generations := RunKeepsTokens(c, calls);
    if i < j {
      IssuedAreDistinct(RunCalls(c, calls), Issued(c, calls), generations, i, j);
    } else {
      IssuedAreDistinct(RunCalls(c, calls), Issued(c, calls), generations, j, i);
    }
  }

  /** The handle or reconciliation the call presents. */
  function Presented(call: Call): Option<Handle> {
    match call
    case CallClaim(_, _, _, _) => None
    case CallComplete(_, h, _) => Some(h)
    case CallRenew(_, h) => Some(h)
    case CallConfirm(h) => Some(h)
    case CallAbandon(h) => Some(h)
    case CallReconcile(_, r, _) => Some(Handle(r.key, r.token))
  }

  /** A handle whose key was claimed again since changes nothing, by any call, at any time. */
  lemma SupersededTokenIsPowerless(c: Config, calls: seq<Call>, i: nat, j: nat, call: Call)
    requires i < j < |Issued(c, calls)| && Issued(c, calls)[i].key == Issued(c, calls)[j].key
    requires Presented(call) == Some(Issued(c, calls)[i])
    ensures After(c, RunCalls(c, calls), call) == RunCalls(c, calls)
  {
    var s, issued := RunCalls(c, calls), Issued(c, calls);
    var generations := RunKeepsTokens(c, calls);
    var key := issued[i].key;
    if key in s.entries {
      var n: nat :| IsLatest(issued, n, key) && issued[n].token == s.entries[key].token;
      assert n >= j;
      IssuedAreDistinct(s, issued, generations, i, n);
    }
  }

  /** A confirmed record is never changed or removed. */
  lemma ConfirmedIsPermanent(c: Config, s: Store, call: Call, key: string)
    requires key in s.entries && s.entries[key].Confirmed?
    ensures key in After(c, s, call).entries && After(c, s, call).entries[key] == s.entries[key]
  {
  }

  lemma {:induction false} ConfirmedForever(c: Config, calls: seq<Call>, n: nat, key: string)
    requires n <= |calls|
    requires key in RunCalls(c, calls[..n]).entries && RunCalls(c, calls[..n]).entries[key].Confirmed?
    ensures key in RunCalls(c, calls).entries && RunCalls(c, calls).entries[key] == RunCalls(c, calls[..n]).entries[key]
    decreases |calls|
  {
    if n == |calls| {
      assert calls[..n] == calls;
    } else {
      var init := calls[..|calls| - 1];
      assert init[..n] == calls[..n];
      ConfirmedForever(c, init, n, key);
      ConfirmedIsPermanent(c, RunCalls(c, init), calls[|calls| - 1], key);
    }
  }

  // ---- leases ----

  /** The call reads no clock, or reads it before the given time. */
  predicate ReadsBefore(call: Call, expiresAtMs: int) {
    match call
    case CallClaim(clock, _, _, _) => clock.Some? ==> clock.value < expiresAtMs
    case CallComplete(clock, _, _) => clock.Some? ==> clock.value < expiresAtMs
    case CallRenew(clock, _) => clock.Some? ==> clock.value < expiresAtMs
    case CallConfirm(_) => true
    case CallAbandon(_) => true
    case CallReconcile(clock, _, _) => clock.Some? ==> clock.value < expiresAtMs
  }

  /** The call can touch a leased record: it presents the owner's token, or comes after expiry. */
  predicate MayTouch(s: Store, key: string, call: Call)
    requires key in s.entries && !s.entries[key].Confirmed?
  {
    || Presented(call) == Some(Handle(key, s.entries[key].token))
    || !ReadsBefore(call, s.entries[key].expiresAtMs)
  }

  lemma LiveLeaseIsUntouched(c: Config, s: Store, key: string, call: Call)
    requires key in s.entries && !s.entries[key].Confirmed? && !MayTouch(s, key, call)
    ensures key in After(c, s, call).entries && After(c, s, call).entries[key] == s.entries[key]
  {
  }

  function RunFrom(c: Config, s: Store, calls: seq<Call>): Store {
    if |calls| == 0 then s else After(c, RunFrom(c, s, calls[..|calls| - 1]), calls[|calls| - 1])
  }

  /** While a lease has not expired, its record is exactly as its owner left it, whatever anyone
      else calls: no second claim is granted and nothing settles, renews or removes it. */
  lemma {:induction false} LiveLeaseIsExclusive(c: Config, s: Store, key: string, calls: seq<Call>)
    requires key in s.entries && !s.entries[key].Confirmed?
    requires forall i :: 0 <= i < |calls| ==> !MayTouch(s, key, calls[i])
    ensures key in RunFrom(c, s, calls).entries && RunFrom(c, s, calls).entries[key] == s.entries[key]
  {
    if |calls| > 0 {
      var n := |calls| - 1;
      LiveLeaseIsExclusive(c, s, key, calls[..n]);
      LiveLeaseIsUntouched(c, RunFrom(c, s, calls[..n]), key, calls[n]);
    }
  }

  /** An expired pending claim is not held for ever: the next claim of the same command takes
      it over under a token never issued before, and the old token is powerless from then on. */
  lemma ExpiredClaimIsTakenOver(c: Config, calls: seq<Call>, key: string, now: int, part: string)
    requires key in RunCalls(c, calls).entries && RunCalls(c, calls).entries[key].Pending?
    requires IsDate(now) && RunCalls(c, calls).entries[key].expiresAtMs <= now && IsDate(now + c.leaseDurationMs)
    requires part != "" && RunCalls(c, calls).tokenGeneration < MAX_SAFE_INTEGER
    ensures var s := RunCalls(c, calls);
            var call := CallClaim(Some(now), part, key, s.entries[key].fingerprint);
            && Minted(c, s, call).Some?
            && (forall i :: 0 <= i < |Issued(c, calls)| ==> Issued(c, calls)[i].token != Minted(c, s, call).value.token)
            && forall late :: Presented(late) == Some(Handle(key, s.entries[key].token)) ==>
                 After(c, After(c, s, call), late) == After(c, s, call)
  {
    var s := RunCalls(c, calls);
    var call := CallClaim(Some(now), part, key, s.entries[key].fingerprint);
    var after := calls + [call];
    assert after[..|calls|] == calls;
    var n := |Issued(c, calls)|;
    assert Issued(c, after) == Issued(c, calls) + [Minted(c, s, call).value];
    forall i | 0 <= i < n ensures Issued(c, calls)[i].token != Minted(c, s, call).value.token {
      EveryTokenIsDistinct(c, after, i, n);
    }
    var generations := RunKeepsTokens(c, calls);
    var i: nat :| IsLatest(Issued(c, calls), i, key) && Issued(c, calls)[i].token == s.entries[key].token;
    forall late | Presented(late) == Some(Handle(key, s.entries[key].token))
      ensures After(c, After(c, s, call), late) == After(c, s, call) {
      SupersededTokenIsPowerless(c, after, i, n, late);
    }
  }
}
