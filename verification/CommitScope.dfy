/** Commit enrollment: one token registry per transactional attempt, and the unit-of-work
    session that hands every token it minted back to the harvest. */
module CommitScopes {
  import opened Common

  class AggregateRoot {
    const address: Address
    /** Whether the aggregate has the kit's persistence lifecycle. */
    const managed: bool
    var version: nat
    var persistedVersion: Option<nat>
    var pendingEvents: seq<Event>

    constructor (address: Address, managed: bool)
      ensures this.address == address && this.managed == managed
      ensures version == 0 && persistedVersion == None && pendingEvents == []
    {
      this.address := address;
      this.managed := managed;
      this.version := 0;
      this.persistedVersion := None;
      this.pendingEvents := [];
    }
  }

  datatype Disposition = Saved | Deleted

  /** Opaque to callers: a token of another registry is never equal to one of this. */
  datatype Token = Token(registry: nat, serial: nat)

  datatype CommitRecord = CommitRecord(aggregate: AggregateRoot, disposition: Disposition)

  datatype CommitError =
    | EnrollmentClosed
    | SavedAfterDeleted
    | NoLifecycle
    | ForeignToken
    | TokenMissing
    | NoVersionAdvance
    | MissingAddress
    | AggregateDeleted
    | OutboxRejected
    | TransactionFailed

  /** The tokens in order of first appearance. */
  function FirstOccurrences(tokens: seq<Token>): seq<Token> {
    if |tokens| == 0 then [] else
    var init, last := tokens[..|tokens| - 1], tokens[|tokens| - 1];
    if last in init then FirstOccurrences(init) else FirstOccurrences(init) + [last]
  }

  lemma {:induction false} FirstOccurrencesOnce(tokens: seq<Token>)
    ensures forall t :: t in FirstOccurrences(tokens) <==> t in tokens
    ensures forall i, j :: 0 <= i < j < |FirstOccurrences(tokens)| ==>
            FirstOccurrences(tokens)[i] != FirstOccurrences(tokens)[j]
    ensures |set t | t in tokens| == |FirstOccurrences(tokens)|
  {
    if |tokens| == 0 {
      assert (set t | t in tokens) == {};
    } else {
      var init, last := tokens[..|tokens| - 1], tokens[|tokens| - 1];
      FirstOccurrencesOnce(init);
      assert tokens == init + [last];
      assert (set t | t in tokens) == (set t | t in init) + {last};
    }
  }

  /** They keep the order in which the tokens first appeared. */
  lemma {:induction false} FirstOccurrencesAscend(tokens: seq<Token>, i: nat, j: nat) returns (m: nat, n: nat)
    requires i < j < |FirstOccurrences(tokens)|
    ensures m < n < |tokens|
    ensures tokens[m] == FirstOccurrences(tokens)[i] && tokens[n] == FirstOccurrences(tokens)[j]
    ensures tokens[m] !in tokens[..m] && tokens[n] !in tokens[..n]
  {
    var init, last := tokens[..|tokens| - 1], |tokens| - 1;
    if j < |FirstOccurrences(init)| {
      m, n := FirstOccurrencesAscend(init, i, j);
      assert init[..m] == tokens[..m] && init[..n] == tokens[..n];
    } else {
      n := last;
      m := FirstAppearance(init, i);
      assert init[..m] == tokens[..m];
    }
  }

  lemma {:induction false} FirstAppearance(tokens: seq<Token>, i: nat) returns (m: nat)
    requires i < |FirstOccurrences(tokens)|
    ensures m < |tokens| && tokens[m] == FirstOccurrences(tokens)[i] && tokens[m] !in tokens[..m]
  {
    var init := tokens[..|tokens| - 1];
    if i < |FirstOccurrences(init)| {
      m := FirstAppearance(init, i);
      assert init[..m] == tokens[..m];
    } else {
      m := |tokens| - 1;
    }
  }

  /** Tokens and enrolled aggregates correspond one to one, and every token was counted. */
  ghost predicate RegistryOk(id: nat, records: map<Token, CommitRecord>, tokens: map<AggregateRoot, Token>,
                             count: nat) {
    && (forall a :: a in tokens ==> tokens[a] in records && records[tokens[a]].aggregate == a)
    && (forall t :: t in records ==> records[t].aggregate in tokens && tokens[records[t].aggregate] == t)
    && (forall t :: t in records ==> t.registry == id && t.serial < count)
    && count == |records|
  }

  lemma MintKeepsRegistry(id: nat, records: map<Token, CommitRecord>, tokens: map<AggregateRoot, Token>, count: nat,
                          aggregate: AggregateRoot, disposition: Disposition)
    requires RegistryOk(id, records, tokens, count) && aggregate !in tokens
    ensures Token(id, count) !in records
    ensures RegistryOk(id, records[Token(id, count) := CommitRecord(aggregate, disposition)],
                       tokens[aggregate := Token(id, count)], count + 1)
  {
  }

  lemma ReenrollKeepsRegistry(id: nat, records: map<Token, CommitRecord>, tokens: map<AggregateRoot, Token>, count: nat,
                              aggregate: AggregateRoot, disposition: Disposition)
    requires RegistryOk(id, records, tokens, count) && aggregate in tokens
    ensures tokens[aggregate] in records && records[tokens[aggregate]].aggregate == aggregate
    ensures RegistryOk(id, records[tokens[aggregate] := CommitRecord(aggregate, disposition)], tokens, count)
    ensures tokens[aggregate := tokens[aggregate]] == tokens
  {
    var records' := records[tokens[aggregate] := CommitRecord(aggregate, disposition)];
    assert records'.Keys == records.Keys;
    assert |records'.Keys| == |records'| && |records.Keys| == |records|;
  }

  /** The aggregate's own token if it has one, otherwise a new one. */
  predicate OneToken(records: map<Token, CommitRecord>, tokens: map<AggregateRoot, Token>, aggregate: AggregateRoot,
                     t: Token) {
    if aggregate in tokens then t == tokens[aggregate] else t !in records
  }

  /** Why an enrollment is refused. */
  predicate Refused(open: bool, records: map<Token, CommitRecord>, tokens: map<AggregateRoot, Token>,
                    aggregate: AggregateRoot, disposition: Disposition) {
    || !open
    || (aggregate !in tokens && !aggregate.managed)
    || (aggregate in tokens && tokens[aggregate] in records
        && records[tokens[aggregate]].disposition.Deleted? && disposition.Saved?)
  }

  class CommitTokenScope {
    const id: nat
    var recordsByToken: map<Token, CommitRecord>
    var tokensByAggregate: map<AggregateRoot, Token>
    var mintedTokenCount: nat
    var open: bool

    ghost predicate Valid()
      reads this
    {
      RegistryOk(id, recordsByToken, tokensByAggregate, mintedTokenCount)
    }

    constructor (id: nat)
      ensures Valid() && open && this.id == id && recordsByToken == map[] && tokensByAggregate == map[]
    {
      this.id := id;
      this.recordsByToken := map[];
      this.tokensByAggregate := map[];
      this.mintedTokenCount := 0;
      this.open := true;
    }

    /** Enrolling the same aggregate again gives the same token; deletion is final. */
    method Enroll(aggregate: AggregateRoot, disposition: Disposition) returns (result: Result<Token, CommitError>)
      requires Valid()
      modifies this
      ensures Valid() && open == old(open)
      ensures result.Err? ==> recordsByToken == old(recordsByToken) && tokensByAggregate == old(tokensByAggregate)
      ensures result.Err? <==> Refused(old(open), old(recordsByToken), old(tokensByAggregate), aggregate, disposition)
      ensures result.Ok? ==>
                && OneToken(old(recordsByToken), old(tokensByAggregate), aggregate, result.value)
                && recordsByToken == old(recordsByToken)[result.value := CommitRecord(aggregate, disposition)]
                && tokensByAggregate == old(tokensByAggregate)[aggregate := result.value]
    {
      if !open {
        return Err(EnrollmentClosed);
      }
      hide RegistryOk;
      if aggregate in tokensByAggregate {
        ReenrollKeepsRegistry(id, recordsByToken, tokensByAggregate, mintedTokenCount, aggregate, disposition);
        var existing := tokensByAggregate[aggregate];
        var record := recordsByToken[existing];
        if record.disposition.Deleted? && disposition.Saved? {
          return Err(SavedAfterDeleted);
        }
        recordsByToken := recordsByToken[existing := CommitRecord(aggregate, disposition)];
        return Ok(existing);
      }
      if !aggregate.managed {
        return Err(NoLifecycle);
      }
      var token := Mint(aggregate, disposition);
      return Ok(token);
    }

    method Mint(aggregate: AggregateRoot, disposition: Disposition) returns (token: Token)
      requires Valid() && aggregate !in tokensByAggregate
      modifies this`recordsByToken, this`tokensByAggregate, this`mintedTokenCount
      ensures Valid() && token !in old(recordsByToken)
      ensures recordsByToken == old(recordsByToken)[token := CommitRecord(aggregate, disposition)]
      ensures tokensByAggregate == old(tokensByAggregate)[aggregate := token]
    {
      hide RegistryOk;
      MintKeepsRegistry(id, recordsByToken, tokensByAggregate, mintedTokenCount, aggregate, disposition);
      token := Token(id, mintedTokenCount);
      tokensByAggregate := tokensByAggregate[aggregate := token];
      recordsByToken := recordsByToken[token := CommitRecord(aggregate, disposition)];
      mintedTokenCount := mintedTokenCount + 1;
    }

    method Close()
      modifies this`open
      ensures !open
    {
      open := false;
    }

    /** Accepts exactly a list that holds every minted token and nothing else, and gives each
        enrolled aggregate once, in order of first appearance. */
    method Resolve(tokens: seq<Token>) returns (result: Result<seq<CommitRecord>, CommitError>)
      requires Valid()
      ensures result.Ok? <==> (forall t :: t in tokens <==> t in recordsByToken)
      ensures result.Err? ==>
              result.error == (if forall t :: t in tokens ==> t in recordsByToken then TokenMissing else ForeignToken)
      ensures result.Ok? ==> IsResolution(result.value, tokens)
    {
      var seen: seq<Token> := [];
      var records: seq<CommitRecord> := [];
      for i := 0 to |tokens|
        invariant forall t :: t in tokens[..i] ==> t in recordsByToken
        invariant seen == FirstOccurrences(tokens[..i]) && |records| == |seen|
        invariant forall t :: t in seen <==> t in tokens[..i]
        invariant forall j :: 0 <= j < |seen| ==> seen[j] in recordsByToken && records[j] == recordsByToken[seen[j]]
      {
        assert tokens[..i + 1] == tokens[..i] + [tokens[i]] && tokens[..i + 1][..i] == tokens[..i];
        if tokens[i] !in recordsByToken {
          return Err(ForeignToken);
        }
        if tokens[i] !in seen {
          seen := seen + [tokens[i]];
          records := records + [recordsByToken[tokens[i]]];
        }
      }
      assert tokens[..|tokens|] == tokens;
      FirstOccurrencesOnce(tokens);
      ghost var presented := set t | t in tokens;
      assert |recordsByToken.Keys| == |recordsByToken|;
      if |seen| != mintedTokenCount {
        assert presented != recordsByToken.Keys;
        return Err(TokenMissing);
      }
      SubsetCount(presented, recordsByToken.Keys);
      return Ok(records);
    }

    ghost predicate IsResolution(records: seq<CommitRecord>, tokens: seq<Token>)
      reads this
    {
      var order := FirstOccurrences(tokens);
      && |records| == |order|
      && (forall i :: 0 <= i < |order| ==> order[i] in recordsByToken && records[i] == recordsByToken[order[i]])
    }

    /** In a resolution every enrolled aggregate stands exactly once. */
    lemma ResolutionIsOneEach(records: seq<CommitRecord>, tokens: seq<Token>)
      requires Valid() && IsResolution(records, tokens) && forall t :: t in tokens <==> t in recordsByToken
      ensures forall i, j :: 0 <= i < j < |records| ==> records[i].aggregate != records[j].aggregate
      ensures forall a :: a in tokensByAggregate <==> exists i :: 0 <= i < |records| && records[i].aggregate == a
    {
      var order := FirstOccurrences(tokens);
      FirstOccurrencesOnce(tokens);
      forall a | a in tokensByAggregate ensures exists i :: 0 <= i < |records| && records[i].aggregate == a {
        var t := tokensByAggregate[a];
        assert t in order;
        var i :| 0 <= i < |order| && order[i] == t;
        assert records[i].aggregate == a;
      }
    }
  }

  class Session {
    const scope: CommitTokenScope
    var enrolled: set<AggregateRoot>
    var deleted: set<AggregateRoot>
    /** Addresses deleted in this operation: another instance of one is refused as well. */
    var tombstones: set<Address>
    var commitTokens: seq<Token>
    var closed: bool

    /** The session holds every token the registry minted, each once. */
    ghost predicate Valid()
      reads this, scope
    {
      && scope.Valid()
      && (forall t :: t in commitTokens <==> t in scope.recordsByToken)
      && (forall i, j :: 0 <= i < j < |commitTokens| ==> commitTokens[i] != commitTokens[j])
    }

    constructor (scope: CommitTokenScope)
      requires scope.Valid() && scope.recordsByToken == map[] && scope.tokensByAggregate == map[]
      ensures Valid() && this.scope == scope && !closed && commitTokens == []
    {
      this.scope := scope;
      this.enrolled := {};
      this.deleted := {};
      this.tombstones := {};
      this.commitTokens := [];
      this.closed := false;
    }

    /** Enrollment order is kept: the token joins at the end, or is already there. */
    ghost predicate TokenJoined(before: seq<Token>, token: Token)
      reads this
    {
      commitTokens == (if token in before then before else before + [token])
    }

    method EnrollSaved(aggregate: AggregateRoot) returns (result: Result<Token, CommitError>)
      requires Valid()
      modifies this, scope
      ensures Valid() && scope.open == old(scope.open)
      ensures closed == old(closed) && deleted == old(deleted) && tombstones == old(tombstones)
      ensures result.Ok? <==>
                && !old(closed) && aggregate !in old(deleted) && aggregate.address !in old(tombstones)
                && !Refused(old(scope.open), old(scope.recordsByToken), old(scope.tokensByAggregate), aggregate, Saved)
      ensures old(closed) ==> result == Err(EnrollmentClosed)
      ensures !old(closed) && (aggregate in old(deleted) || aggregate.address in old(tombstones)) ==>
              result == Err(AggregateDeleted)
      ensures result.Ok? ==>
                && TokenJoined(old(commitTokens), result.value) && old(commitTokens) <= commitTokens
                && enrolled == old(enrolled) + {aggregate}
                && scope.tokensByAggregate == old(scope.tokensByAggregate)[aggregate := result.value]
                && scope.recordsByToken == old(scope.recordsByToken)[result.value := CommitRecord(aggregate, Saved)]
      ensures result.Err? ==>
                && commitTokens == old(commitTokens)
                && scope.tokensByAggregate == old(scope.tokensByAggregate)
                && scope.recordsByToken == old(scope.recordsByToken)
    {
      hide RegistryOk;
      if closed {
        return Err(EnrollmentClosed);
      }
      if aggregate in deleted || aggregate.address in tombstones {
        return Err(AggregateDeleted);
      }
      enrolled := enrolled + {aggregate};
      result := scope.Enroll(aggregate, Saved);
      if result.Ok? && result.value !in commitTokens {
        commitTokens := commitTokens + [result.value];
      }
    }

    method EnrollDeleted(aggregate: AggregateRoot) returns (result: Result<Token, CommitError>)
      requires Valid()
      modifies this, scope
      ensures Valid() && scope.open == old(scope.open) && closed == old(closed)
      ensures result.Ok? <==>
                && !old(closed)
                && !Refused(old(scope.open), old(scope.recordsByToken), old(scope.tokensByAggregate),
                           aggregate, Deleted)
      ensures old(closed) ==> result == Err(EnrollmentClosed)
      ensures result.Ok? ==>
                && TokenJoined(old(commitTokens), result.value) && old(commitTokens) <= commitTokens
                && enrolled == old(enrolled) + {aggregate}
                && deleted == old(deleted) + {aggregate} && tombstones == old(tombstones) + {aggregate.address}
                && scope.tokensByAggregate == old(scope.tokensByAggregate)[aggregate := result.value]
                && scope.recordsByToken == old(scope.recordsByToken)[result.value := CommitRecord(aggregate, Deleted)]
      ensures result.Err? ==>
                && commitTokens == old(commitTokens) && deleted == old(deleted) && tombstones == old(tombstones)
                && enrolled == old(enrolled)
                && scope.tokensByAggregate == old(scope.tokensByAggregate)
                && scope.recordsByToken == old(scope.recordsByToken)
    {
      hide RegistryOk;
      if closed {
        return Err(EnrollmentClosed);
      }
      result := scope.Enroll(aggregate, Deleted);
      if result.Err? {
        return;
      }
      deleted := deleted + {aggregate};
      tombstones := tombstones + {aggregate.address};
      enrolled := enrolled + {aggregate};
      if result.value !in commitTokens {
        commitTokens := commitTokens + [result.value];
      }
    }

    /** The tokens for the harvest: the registry always accepts them. */
    method CommitTokens() returns (tokens: seq<Token>)
      requires Valid()
      modifies this`closed
      ensures Valid() && closed && tokens == commitTokens
      ensures forall t :: t in tokens <==> t in scope.recordsByToken
    {
      closed := true;
      return commitTokens;
    }
  }
}
