/** The pipeline fed by `withCommit`: its histories consist of whole commits, so the projection
    never stalls. */
module PipelineProgress {
  import opened Common
  import opened Outboxes
  import opened OutboxChain
  import opened OutboxProperties
  import opened Projections
  import opened Pipeline
  import opened PipelineTheorems
  import opened HarvestedBatches

  /** The batch only names events the outbox still knows, as a redelivery or a requeue does. */
  ghost predicate OnlyKnown(s: State, cs: seq<Candidate>) {
    forall c :: c in cs ==> IsKnown(s, c.event.eventId)
  }

  /** Every batch added along the run is a harvest, or repeats known events. */
  ghost predicate HarvestRun(l: Limits, actions: seq<Action>) {
    |actions| > 0 ==>
      && HarvestRun(l, actions[..|actions| - 1])
      && Allowed(Run(l, actions[..|actions| - 1]), actions[|actions| - 1])
      && var a := actions[|actions| - 1];
         var s := Run(l, actions[..|actions| - 1]);
         a.AddEvents? ==> IsHarvest(s.history, a.candidates) || OnlyKnown(s.outbox, a.candidates)
  }

  lemma {:induction false} HarvestRunIsAllowed(l: Limits, actions: seq<Action>)
    requires HarvestRun(l, actions)
    ensures AllowedRun(l, actions)
  {
    if |actions| > 0 {
      HarvestRunIsAllowed(l, actions[..|actions| - 1]);
    }
  }

  lemma StaysKnown(l: Limits, now: State, c: Candidate, x: string)
    requires ValidLimits(l) && StorageInv(l, now) && IsKnown(now, x) && AddOne(l, now, c).Ok?
    ensures IsKnown(AddOne(l, now, c).value, x)
  {
    AddOneKeepsStorage(l, now, c);
  }

  lemma {:induction false} LoopKeepsKnown(l: Limits, s: State, cs: seq<Candidate>, x: string)
    requires ValidLimits(l) && StorageInv(l, s) && IsKnown(s, x)
    ensures IsKnown(AddLoop(l, s, cs).state, x)
  {
    if |cs| > 0 {
      var before := AddLoop(l, s, cs[..|cs| - 1]);
      LoopKeepsKnown(l, s, cs[..|cs| - 1], x);
      LoopStaysWithinNewIds(l, s, cs[..|cs| - 1]);
      if before.error.None? && AddOne(l, before.state, cs[|cs| - 1]).Ok? {
        StaysKnown(l, before.state, cs[|cs| - 1], x);
      }
    }
  }

  /** Adding known events again commits nothing. */
  lemma {:induction false} KnownKeepsHistory(l: Limits, s: State, h: History, cs: seq<Candidate>)
    requires ValidLimits(l) && StorageInv(l, s) && OnlyKnown(s, cs)
    ensures LoopHistory(l, s, h, cs) == h
  {
    if |cs| > 0 {
      var init, c := cs[..|cs| - 1], cs[|cs| - 1];
      assert c in cs && forall x :: x in init ==> x in cs;
      KnownKeepsHistory(l, s, h, init);
      LoopKeepsKnown(l, s, init, c.event.eventId);
    }
  }

  lemma StepKeepsWhole(l: Limits, s: System, a: Action)
    requires ValidLimits(l) && Inv(l, s.outbox, s.history) && WholeCommits(s.history)
    requires a.AddEvents? ==> IsHarvest(s.history, a.candidates) || OnlyKnown(s.outbox, a.candidates)
    ensures WholeCommits(Step(l, s, a).history)
  {
    hide WholeCommits, IsHarvest, OnlyKnown, LoopHistory, AddLoop, Precheck, ChainInv;
    if a.AddEvents? {
      if IsHarvest(s.history, a.candidates) {
        HarvestKeepsWhole(l, s.outbox, s.history, a.candidates);
      } else {
        KnownKeepsHistory(l, s.outbox, s.history, a.candidates);
      }
    }
  }

  /** Along a run fed by harvests every commit of the history is whole. */
  lemma {:induction false} HarvestRunIsWhole(l: Limits, actions: seq<Action>)
    requires ValidLimits(l) && HarvestRun(l, actions)
    ensures WholeCommits(Run(l, actions).history)
  {
    if |actions| > 0 {
      var init := actions[..|actions| - 1];
      HarvestRunIsWhole(l, init);
      HarvestRunIsAllowed(l, init);
      Pipeline.RunKeepsInv(l, init);
      assert Inv(l, Run(l, init).outbox, Run(l, init).history);
      hide Inv, ProjectionInv, WholeCommits, Step, IsHarvest, OnlyKnown;
      StepKeepsWhole(l, Run(l, init), actions[|actions| - 1]);
    }
  }

  /** No stall: in every state reached by adding harvests, the next unapplied event of an address,
      delivered alone, is accepted and applied. */
  lemma NeverStalls(l: Limits, actions: seq<Action>, e: Item)
    requires ValidLimits(l) && HarvestRun(l, actions)
    requires ItemFinalized(Run(l, actions).history, e) && IsValidPosition(e.position)
    requires !HasReached(Run(l, actions).checkpoints, e.address, e.position)
    requires CaughtUpTo(Run(l, actions), e.address, e.position)
    ensures var c := Run(l, actions).checkpoints;
            Accepts(c, [e]) && AdvanceAll(c, [e]) == Advanced(Apply(c, e), [e], 0)
  {
    HarvestRunIsAllowed(l, actions);
    HarvestRunIsWhole(l, actions);
    NextEventIsApplied(l, actions, e);
  }
}
