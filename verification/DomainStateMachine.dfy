/** The stateful machine around the pure transition function, and what holds over every run. */
module DomainStateMachines {
  import opened Common
  import opened StateMachines
  import opened StateMachineAnalyzers

  class DomainStateMachine<!C(!new), !I(!new), !O(!new)> {
    const definition: Definition<C, I, O>
    const rules: DataRules<C, I, O>
    var snapshot: Snapshot<C>
    var evaluating: bool

    ghost predicate Valid()
      reads this
    {
      ValidDefinition(definition) && Sound(definition, snapshot)
    }

    constructor (rules: DataRules<C, I, O>, definition: Definition<C, I, O>, snapshot: Snapshot<C>)
      requires ValidDefinition(definition) && Sound(definition, snapshot)
      ensures Valid() && this.rules == rules && this.definition == definition
      ensures this.snapshot == snapshot && !evaluating
    {
      this.rules := rules;
      this.definition := definition;
      this.snapshot := snapshot;
      this.evaluating := false;
    }

    /** A machine from a supplied snapshot, or from the initial one. */
    static method Create(rules: DataRules<C, I, O>, definition: Definition<C, I, O>, supplied: Option<Snapshot<C>>)
      returns (machine: Result<DomainStateMachine<C, I, O>, MachineError>)
      requires ValidDefinition(definition)
      ensures var start := if supplied.Some? then PrepareSnapshot(rules, definition, supplied.value)
                           else CreateInitial(rules, definition);
              if start.Err? then machine == Err(start.error)
              else machine.Ok? && fresh(machine.value) && machine.value.Valid() && !machine.value.evaluating
                   && machine.value.snapshot == start.value && machine.value.definition == definition
                   && machine.value.rules == rules
    {
      var start := if supplied.Some? then PrepareSnapshot(rules, definition, supplied.value)
                   else CreateInitial(rules, definition);
      if start.Err? {
        return Err(start.error);
      }
      var m := new DomainStateMachine(rules, definition, start.value);
      return Ok(m);
    }

    /** Checks a transition without changing the snapshot: yes exactly when a dispatch now would get
        past its guard, no exactly when it would be refused, and otherwise the error it would throw. */
    method Can(input: Input<I>) returns (result: Result<bool, MachineError>)
      requires Valid()
      modifies this`evaluating
      ensures evaluating == old(evaluating)
      ensures old(evaluating) ==> result == Err(Reentrant)
      ensures !old(evaluating) ==>
                var dispatch := TransitionPrepared(rules, definition, snapshot, input);
                && (result == Ok(true) <==> GuardPassed(rules, definition, snapshot, input))
                && (result == Ok(false) <==> Refused(input, dispatch))
                && (result.Err? ==> dispatch == Err(result.error))
                && (dispatch.Ok? ==> result == Ok(true))
    {
      CanAgrees(rules, definition, snapshot, input);
      if evaluating {
        return Err(Reentrant);
      }
      evaluating := true;
      result := CanPrepared(rules, definition, snapshot, input);
      evaluating := false;
    }

    /** Applies an input; the snapshot advances only if everything succeeded. */
    method Dispatch(input: Input<I>) returns (result: Result<Outcome<C, O>, MachineError>)
      requires Valid()
      modifies this
      ensures Valid() && evaluating == old(evaluating)
      ensures result == if old(evaluating) then Err(Reentrant)
                        else TransitionPrepared(rules, definition, old(snapshot), input)
      ensures snapshot == if result.Ok? then result.value.snapshot else old(snapshot)
      ensures result.Ok? ==> Edge(definition, old(snapshot).state, snapshot.state)
      ensures !old(evaluating) ==> forall o ::
                result == Ok(o) <==>
                exists t, context :: Offered(rules, definition, old(snapshot), input, t)
                                     && Allows(t, old(snapshot), input)
                                     && Answers(t, old(snapshot), input, context, o.outputs)
                                     && MadeOf(rules, definition, old(snapshot), t, context, o)
    {
      if evaluating {
        return Err(Reentrant);
      }
      forall o: Outcome<C, O> {
        TransitionSucceedsIff(rules, definition, snapshot, input, o);
      }
      evaluating := true;
      result := TransitionPrepared(rules, definition, snapshot, input);
      if result.Ok? {
        TransitionIsSound(rules, definition, snapshot, input);
        snapshot := result.value.snapshot;
      }
      evaluating := false;
    }
  }

  // ---- runs ----

  /** The snapshots a run passes through; a rejected input leaves the snapshot as it was. */
  function RunFrom<C(!new), I(!new), O(!new)>(rules: DataRules<C, I, O>, d: Definition<C, I, O>, start: Snapshot<C>,
                                              inputs: seq<Input<I>>)
    : (s: Snapshot<C>)
    requires ValidDefinition(d) && d.states.Has(start.state)
    ensures d.states.Has(s.state)
  {
    if |inputs| == 0 then start else
    var before := RunFrom(rules, d, start, inputs[..|inputs| - 1]);
    var r := TransitionPrepared(rules, d, before, inputs[|inputs| - 1]);
    if r.Ok? then r.value.snapshot else before
  }

  /** Every snapshot of a run satisfies both invariants and lies where the graph leads from its start. */
  lemma {:induction false} RunStaysSound<C(!new), I(!new), O(!new)>(
    rules: DataRules<C, I, O>, d: Definition<C, I, O>, start: Snapshot<C>, inputs: seq<Input<I>>)
    requires ValidDefinition(d) && Sound(d, start)
    ensures Sound(d, RunFrom(rules, d, start, inputs))
    ensures Leads(d, start.state, RunFrom(rules, d, start, inputs).state)
  {
    if |inputs| == 0 {
      WalkStays(d, start.state);
    } else {
      var init, input := inputs[..|inputs| - 1], inputs[|inputs| - 1];
      RunStaysSound(rules, d, start, init);
      var before := RunFrom(rules, d, start, init);
      if TransitionPrepared(rules, d, before, input).Ok? {
        TransitionIsSound(rules, d, before, input);
        WalkExtends(d, start.state, before.state, TransitionPrepared(rules, d, before, input).value.after);
      }
    }
  }

  /** A run from the initial snapshot stays in the states the analysis lists as reachable. */
  lemma RunsStayReachable<C(!new), I(!new), O(!new)>(
    rules: DataRules<C, I, O>, d: Definition<C, I, O>, a: Analysis, inputs: seq<Input<I>>)
    requires ValidDefinition(d) && Exact(d, a) && CreateInitial(rules, d).Ok?
    ensures RunFrom(rules, d, CreateInitial(rules, d).value, inputs).state in a.structurallyReachable
    ensures Sound(d, RunFrom(rules, d, CreateInitial(rules, d).value, inputs))
  {
    InitialIsSound(rules, d);
    RunStaysSound(rules, d, CreateInitial(rules, d).value, inputs);
  }

  lemma {:induction false} WalkOn<C(!new), I(!new), O(!new)>(d: Definition<C, I, O>, source: string, q: seq<string>)
    requires IsWalk(d, q) && Leads(d, source, q[0])
    ensures Leads(d, source, q[|q| - 1])
    decreases |q|
  {
    if |q| > 1 {
      WalkOn(d, source, q[..|q| - 1]);
      WalkExtends(d, source, q[|q| - 2], q[|q| - 1]);
    }
  }

  /** No run from a state without a terminal path ever reaches a terminal state, and every state
      it passes also has no terminal path. */
  lemma NoTerminalPathNeverEnds<C(!new), I(!new), O(!new)>(
    rules: DataRules<C, I, O>, d: Definition<C, I, O>, a: Analysis, start: Snapshot<C>, inputs: seq<Input<I>>)
    requires ValidDefinition(d) && Exact(d, a) && Sound(d, start)
    requires start.state !in a.withTerminalPath
    ensures RunFrom(rules, d, start, inputs).state !in a.withTerminalPath
    ensures !IsTerminal(d, RunFrom(rules, d, start, inputs).state)
  {
    RunStaysSound(rules, d, start, inputs);
    var end := RunFrom(rules, d, start, inputs).state;
    WalkStays(d, end);
    if LeadsToTerminal(d, end) {
      var t :| IsTerminal(d, t) && Leads(d, end, t);
      var q :| IsWalk(d, q) && q[0] == end && q[|q| - 1] == t;
      WalkOn(d, start.state, q);
      assert LeadsToTerminal(d, start.state);
    }
  }

  /** A terminal state is final: no input ever leaves it. */
  lemma {:induction false} TerminalIsFinal<C(!new), I(!new), O(!new)>(
    rules: DataRules<C, I, O>, d: Definition<C, I, O>, start: Snapshot<C>, inputs: seq<Input<I>>)
    requires ValidDefinition(d) && d.states.Has(start.state) && IsTerminal(d, start.state)
    ensures RunFrom(rules, d, start, inputs) == start
  {
    if |inputs| > 0 {
      TerminalIsFinal(rules, d, start, inputs[..|inputs| - 1]);
    }
  }
}
