/** Domain state machines: definitions with guards and reducers as callbacks, snapshots, and
    the pure transition function with its error cases in the order they are checked. */
module StateMachines {
  import opened Common
  import opened OrderedMaps

  /** A callback returns or throws. */
  datatype Call<+T> = Returned(value: T) | Threw(error: string)

  datatype Verdict = Yes | No | NotBoolean

  datatype GuardAnswer = Allow | Deny | Reject(error: string) | NotAnAnswer

  /** What a reducer returned: nothing, a well-formed result, or something else. */
  datatype Reduction<+C, +O> = Nothing | Result(context: Option<C>, outputs: Option<seq<O>>) | NotAResult

  datatype Snapshot<C> = Snapshot(state: string, context: C)

  /** `inputType` is None when the input has no own string `type`. */
  datatype Input<I> = Input(inputType: Option<string>, payload: I)

  datatype Transition<!C, !I, O> = Transition(
    target: string,
    guard: Option<(string, C, Input<I>) -> Call<GuardAnswer>>,
    reduce: Option<(string, C, Input<I>) -> Call<Reduction<C, O>>>)

  datatype StateNode<!C, !I, O> = StateNode(
    terminal: bool,
    validateContext: Option<(string, C) -> Call<Verdict>>,
    on: OrderedMap<string, Transition<C, I, O>>)

  datatype Definition<!C, !I, O> = Definition(
    initial: string,
    initialContext: () -> Call<C>,
    validateSnapshot: Option<Snapshot<C> -> Call<Verdict>>,
    states: OrderedMap<string, StateNode<C, I, O>>)

  /** Which contexts, inputs and outputs the deep clone accepts. */
  datatype DataRules<!C, !I, !O> = DataRules(context: C -> bool, input: Input<I> -> bool, outputs: seq<O> -> bool)

  datatype MachineError =
    | InvalidInput
    | InvalidTransition
    | GuardRejected
    | GuardError(error: string)
    | InvalidGuardResult
    | InvalidResult
    | InvalidContext
    | InvalidSnapshot
    | InvalidDefinition
    | CallbackThrew(error: string)
    | Reentrant

  datatype Outcome<C, O> = Outcome(before: string, after: string, snapshot: Snapshot<C>, outputs: seq<O>)

  // ---- definitions ----

  /** What validation demands of a definition's graph. */
  ghost predicate ValidDefinition<C(!new), I(!new), O(!new)>(d: Definition<C, I, O>) {
    && d.states.Valid() && d.states.Has(d.initial)
    && forall s :: d.states.Has(s) ==> ValidNode(d, d.states.entries[s])
  }

  ghost predicate ValidNode<C(!new), I(!new), O(!new)>(d: Definition<C, I, O>, n: StateNode<C, I, O>) {
    && n.on.Valid()
    && (n.terminal ==> n.on.order == [])
    && TargetsDefined(d, n)
  }

  ghost predicate TargetsDefined<C, I, O>(d: Definition<C, I, O>, n: StateNode<C, I, O>) {
    forall t :: t in n.on.entries ==> d.states.Has(n.on.entries[t].target)
  }

  function GetTransition<C, I, O>(d: Definition<C, I, O>, state: string, inputType: string): Option<Transition<C, I, O>>
    requires d.states.Has(state)
  {
    d.states.entries[state].on.Get(inputType)
  }

  predicate IsTerminal<C, I, O>(d: Definition<C, I, O>, state: string) {
    d.states.Has(state) && d.states.entries[state].terminal
  }

  // ---- snapshots ----

  function Judge(verdict: Call<Verdict>, rejected: MachineError): Option<MachineError> {
    match verdict
    case Threw(e) => Some(CallbackThrew(e))
    case Returned(NotBoolean) => Some(InvalidDefinition)
    case Returned(No) => Some(rejected)
    case Returned(Yes) => None
  }

  /** Both invariants, the state's own before the machine's. */
  function InvariantProblem<C, I, O>(d: Definition<C, I, O>, s: Snapshot<C>): Option<MachineError>
    requires d.states.Has(s.state)
  {
    var own := d.states.entries[s.state].validateContext;
    var first := if own.Some? then Judge(own.value(s.state, s.context), InvalidSnapshot) else None;
    if first.Some? then first
    else if d.validateSnapshot.Some? then Judge(d.validateSnapshot.value(s), InvalidSnapshot) else None
  }

  function CreateSnapshot<C, I, O>(rules: DataRules<C, I, O>, state: string, context: C)
    : Result<Snapshot<C>, MachineError>
  {
    if rules.context(context) then Ok(Snapshot(state, context)) else Err(InvalidContext)
  }

  function Checked<C, I, O>(d: Definition<C, I, O>, s: Snapshot<C>): Result<Snapshot<C>, MachineError>
    requires d.states.Has(s.state)
  {
    var problem := InvariantProblem(d, s);
    if problem.Some? then Err(problem.value) else Ok(s)
  }

  function CreateInitial<C, I, O>(rules: DataRules<C, I, O>, d: Definition<C, I, O>): Result<Snapshot<C>, MachineError>
    requires d.states.Has(d.initial)
  {
    var context := d.initialContext();
    if context.Threw? then Err(CallbackThrew(context.error)) else
    var created := CreateSnapshot(rules, d.initial, context.value);
    if created.Err? then created else Checked(d, created.value)
  }

  function PrepareSnapshot<C, I, O>(rules: DataRules<C, I, O>, d: Definition<C, I, O>, s: Snapshot<C>)
    : Result<Snapshot<C>, MachineError>
  {
    if !d.states.Has(s.state) then Err(InvalidSnapshot) else
    var created := CreateSnapshot(rules, s.state, s.context);
    if created.Err? then created else Checked(d, created.value)
  }

  /** The snapshot satisfies the state's and the machine's invariant. */
  predicate Sound<C, I, O>(d: Definition<C, I, O>, s: Snapshot<C>) {
    && d.states.Has(s.state)
    && (d.states.entries[s.state].validateContext.Some? ==>
          d.states.entries[s.state].validateContext.value(s.state, s.context) == Returned(Yes))
    && (d.validateSnapshot.Some? ==> d.validateSnapshot.value(s) == Returned(Yes))
  }

  // ---- transitions ----

  function ResolveGuard(answer: Call<GuardAnswer>): Option<MachineError> {
    match answer
    case Threw(e) => Some(CallbackThrew(e))
    case Returned(Allow) => None
    case Returned(Deny) => Some(GuardRejected)
    case Returned(Reject(e)) => Some(GuardError(e))
    case Returned(NotAnAnswer) => Some(InvalidGuardResult)
  }

  function GuardProblem<C, I, O>(t: Transition<C, I, O>, s: Snapshot<C>, input: Input<I>): Option<MachineError> {
    if t.guard.None? then None else ResolveGuard(t.guard.value(s.state, s.context, input))
  }

  /** What happens once the guard let the input through. */
  function Reduce<C, I, O>(rules: DataRules<C, I, O>, d: Definition<C, I, O>, t: Transition<C, I, O>,
                           s: Snapshot<C>, input: Input<I>): Result<Outcome<C, O>, MachineError>
    requires d.states.Has(t.target)
  {
    var call := if t.reduce.None? then Returned(Nothing) else t.reduce.value(s.state, s.context, input);
    if call.Threw? then Err(CallbackThrew(call.error))
    else if call.value.NotAResult? then Err(InvalidResult)
    else
      var context := if call.value.Result? then call.value.context else None;
      var outputs := if call.value.Result? && call.value.outputs.Some? then call.value.outputs.value else [];
      var next :=
        if context.None? then Ok(Snapshot(t.target, s.context)) else CreateSnapshot(rules, t.target, context.value);
      if next.Err? then Err(next.error)
      else if InvariantProblem(d, next.value).Some? then Err(InvariantProblem(d, next.value).value)
      else if !rules.outputs(outputs) then Err(InvalidResult)
      else Ok(Outcome(s.state, t.target, next.value, outputs))
  }

  function TransitionPrepared<C, I, O>(rules: DataRules<C, I, O>, d: Definition<C, I, O>, s: Snapshot<C>,
                                       input: Input<I>)
    : Result<Outcome<C, O>, MachineError>
    requires d.states.Has(s.state)
    requires TargetsDefined(d, d.states.entries[s.state])
  {
    if input.inputType.None? then Err(InvalidInput) else
    var t := if IsTerminal(d, s.state) then None else GetTransition(d, s.state, input.inputType.value);
    if t.None? then Err(InvalidTransition)
    else if !rules.input(input) then Err(InvalidInput)
    else
      var problem := GuardProblem(t.value, s, input);
      if problem.Some? then Err(problem.value) else Reduce(rules, d, t.value, s, input)
  }

  /** Ok says whether the input currently has an allowed transition; Err is a thrown error. */
  function CanPrepared<C, I, O>(rules: DataRules<C, I, O>, d: Definition<C, I, O>, s: Snapshot<C>, input: Input<I>)
    : Result<bool, MachineError>
    requires d.states.Has(s.state)
  {
    if input.inputType.None? || IsTerminal(d, s.state) then Ok(false) else
    var t := GetTransition(d, s.state, input.inputType.value);
    if t.None? then Ok(false)
    else if !rules.input(input) then Err(InvalidInput)
    else
      var problem := GuardProblem(t.value, s, input);
      if problem.None? then Ok(true)
      else if problem.value.GuardRejected? || problem.value.GuardError? then Ok(false)
      else Err(problem.value)
  }

  // ---- the transition graph ----

  ghost predicate Edge<C(!new), I(!new), O(!new)>(d: Definition<C, I, O>, source: string, target: string) {
    && d.states.Has(source)
    && exists t :: d.states.entries[source].on.Has(t) && d.states.entries[source].on.entries[t].target == target
  }

  ghost predicate IsWalk<C(!new), I(!new), O(!new)>(d: Definition<C, I, O>, p: seq<string>) {
    && |p| > 0 && d.states.Has(p[0])
    && forall i :: 0 <= i < |p| - 1 ==> Edge(d, p[i], p[i + 1])
  }

  ghost predicate Leads<C(!new), I(!new), O(!new)>(d: Definition<C, I, O>, source: string, target: string) {
    exists p :: IsWalk(d, p) && p[0] == source && p[|p| - 1] == target
  }

  ghost predicate LeadsToTerminal<C(!new), I(!new), O(!new)>(d: Definition<C, I, O>, source: string) {
    exists t :: IsTerminal(d, t) && Leads(d, source, t)
  }

  lemma WalkExtends<C(!new), I(!new), O(!new)>(d: Definition<C, I, O>, source: string, middle: string, target: string)
    requires Leads(d, source, middle) && Edge(d, middle, target)
    ensures Leads(d, source, target)
  {
    var p :| IsWalk(d, p) && p[0] == source && p[|p| - 1] == middle;
    var q := p + [target];
    forall i | 0 <= i < |q| - 1 ensures Edge(d, q[i], q[i + 1]) {
      assert q[i] == p[i];
      assert i < |p| - 1 ==> q[i + 1] == p[i + 1];
    }
    assert IsWalk(d, q) && q[0] == source && q[|q| - 1] == target;
  }

  lemma WalkPrepends<C(!new), I(!new), O(!new)>(d: Definition<C, I, O>, source: string, middle: string, target: string)
    requires Edge(d, source, middle) && Leads(d, middle, target)
    ensures Leads(d, source, target)
  {
    var p :| IsWalk(d, p) && p[0] == middle && p[|p| - 1] == target;
    var q := [source] + p;
    forall i | 0 <= i < |q| - 1 ensures Edge(d, q[i], q[i + 1]) {
      assert q[i + 1] == p[i];
      assert i > 0 ==> q[i] == p[i - 1];
    }
    assert IsWalk(d, q) && q[0] == source && q[|q| - 1] == target;
  }

  lemma WalkStays<C(!new), I(!new), O(!new)>(d: Definition<C, I, O>, state: string)
    requires d.states.Has(state)
    ensures Leads(d, state, state)
  {
    assert IsWalk(d, [state]);
  }

  // ---- what one transition guarantees ----

  /** A successful transition follows an edge of the graph out of a non-terminal state, and its
      snapshot satisfies both invariants. */
  lemma TransitionIsSound<C(!new), I(!new), O(!new)>(
    rules: DataRules<C, I, O>, d: Definition<C, I, O>, s: Snapshot<C>, input: Input<I>)
    requires ValidDefinition(d) && d.states.Has(s.state)
    requires TransitionPrepared(rules, d, s, input).Ok?
    ensures var o := TransitionPrepared(rules, d, s, input).value;
            && o.before == s.state && o.after == o.snapshot.state
            && Edge(d, s.state, o.after) && !IsTerminal(d, s.state)
            && Sound(d, o.snapshot)
  {
    var inputType := input.inputType.value;
    assert d.states.entries[s.state].on.Has(inputType);
  }

  lemma InitialIsSound<C(!new), I(!new), O(!new)>(rules: DataRules<C, I, O>, d: Definition<C, I, O>)
    requires ValidDefinition(d) && CreateInitial(rules, d).Ok?
    ensures CreateInitial(rules, d).value.state == d.initial && Sound(d, CreateInitial(rules, d).value)
  {
  }

  /** A prepared snapshot is the given one, defined and satisfying both invariants; exactly
      such snapshots with a cloneable context are accepted. */
  lemma PreparedIffSound<C(!new), I(!new), O(!new)>(rules: DataRules<C, I, O>, d: Definition<C, I, O>, s: Snapshot<C>)
    ensures PrepareSnapshot(rules, d, s).Ok? <==> rules.context(s.context) && Sound(d, s)
    ensures PrepareSnapshot(rules, d, s).Ok? ==> PrepareSnapshot(rules, d, s).value == s
  {
  }

  /** The input names a transition of the state, can be copied, and the guard lets it through. */
  ghost predicate GuardPassed<C(!new), I(!new), O(!new)>(
    rules: DataRules<C, I, O>, d: Definition<C, I, O>, s: Snapshot<C>, input: Input<I>)
    requires d.states.Has(s.state)
  {
    var on := d.states.entries[s.state].on;
    && input.inputType.Some? && on.Has(input.inputType.value)
    && rules.input(input)
    && GuardProblem(on.entries[input.inputType.value], s, input).None?
  }

  /** `transition` finds nothing to take, or its guard answers no. */
  predicate Refused<C, I, O>(input: Input<I>, r: Result<Outcome<C, O>, MachineError>) {
    r.Err? && (input.inputType.None? || r.error.InvalidTransition? || r.error.GuardRejected? || r.error.GuardError?)
  }

  /** `can` agrees with `transition`: it says yes exactly when the guard lets the input through to
      the reducer, no exactly when `transition` refuses, and otherwise throws exactly what
      `transition` throws. In particular a transition that would succeed is announced. */
  lemma CanAgrees<C(!new), I(!new), O(!new)>(
    rules: DataRules<C, I, O>, d: Definition<C, I, O>, s: Snapshot<C>, input: Input<I>)
    requires ValidDefinition(d) && d.states.Has(s.state)
    ensures var can, transition := CanPrepared(rules, d, s, input), TransitionPrepared(rules, d, s, input);
            && (can == Ok(true) <==> GuardPassed(rules, d, s, input))
            && (can == Ok(false) <==> Refused(input, transition))
            && (forall e :: can == Err(e) <==>
                  transition == Err(e) && !Refused(input, transition) && !GuardPassed(rules, d, s, input))
            && (GuardPassed(rules, d, s, input) ==>
                  transition == Reduce(rules, d, d.states.entries[s.state].on.entries[input.inputType.value], s, input))
            && (transition.Ok? ==> can == Ok(true))
  {
    if input.inputType.Some? && GetTransition(d, s.state, input.inputType.value).Some? {
      assert d.states.entries[s.state].on.Has(input.inputType.value);
    }
  }

  // ---- what a transition does, from its own guard and reducer ----

  /** The input reaches the guard of this transition: the state is not terminal and lists it under
      the input's type, and the input can be copied. */
  ghost predicate Offered<C(!new), I(!new), O(!new)>(
    rules: DataRules<C, I, O>, d: Definition<C, I, O>, s: Snapshot<C>, input: Input<I>, t: Transition<C, I, O>)
  {
    && d.states.Has(s.state) && !d.states.entries[s.state].terminal
    && input.inputType.Some? && d.states.entries[s.state].on.Has(input.inputType.value)
    && d.states.entries[s.state].on.entries[input.inputType.value] == t
    && rules.input(input)
  }

  ghost predicate Allows<C(!new), I(!new), O(!new)>(t: Transition<C, I, O>, s: Snapshot<C>, input: Input<I>) {
    t.guard.None? || t.guard.value(s.state, s.context, input) == Returned(Allow)
  }

  /** The reducer returns this new context, if any, and these outputs. */
  ghost predicate Answers<C(!new), I(!new), O(!new)>(
    t: Transition<C, I, O>, s: Snapshot<C>, input: Input<I>, context: Option<C>, outputs: seq<O>)
  {
    if t.reduce.None? || t.reduce.value(s.state, s.context, input) == Returned(Nothing)
    then context == None && outputs == []
    else
      var call := t.reduce.value(s.state, s.context, input);
      || (call == Returned(Result(context, None)) && outputs == [])
      || call == Returned(Result(context, Some(outputs)))
  }

  /** The outcome is made of the reducer's answer: its outputs and its context, or the old context
      where it gives none. Both can be copied, and the new snapshot satisfies both invariants. */
  ghost predicate MadeOf<C(!new), I(!new), O(!new)>(
    rules: DataRules<C, I, O>, d: Definition<C, I, O>, s: Snapshot<C>, t: Transition<C, I, O>,
    context: Option<C>, o: Outcome<C, O>)
  {
    && o.before == s.state && o.after == t.target
    && o.snapshot == Snapshot(t.target, if context.Some? then context.value else s.context)
    && (context.Some? ==> rules.context(context.value))
    && Sound(d, o.snapshot)
    && rules.outputs(o.outputs)
  }

  lemma {:induction false} SoundIffNoProblem<C(!new), I(!new), O(!new)>(d: Definition<C, I, O>, s: Snapshot<C>)
    requires d.states.Has(s.state)
    ensures InvariantProblem(d, s).None? <==> Sound(d, s)
  {
  }

  lemma ReduceMakes<C(!new), I(!new), O(!new)>(
    rules: DataRules<C, I, O>, d: Definition<C, I, O>, t: Transition<C, I, O>, s: Snapshot<C>, input: Input<I>,
    o: Outcome<C, O>)
    requires d.states.Has(t.target)
    ensures Reduce(rules, d, t, s, input) == Ok(o) <==>
            exists context :: Answers(t, s, input, context, o.outputs) && MadeOf(rules, d, s, t, context, o)
  {
    hide Sound, InvariantProblem;
    forall context: Option<C> {
      SoundIffNoProblem(d, Snapshot(t.target, if context.Some? then context.value else s.context));
    }
    var call := if t.reduce.None? then Returned(Nothing) else t.reduce.value(s.state, s.context, input);
    if call.Returned? && !call.value.NotAResult? {
      var context := if call.value.Result? then call.value.context else None;
      var outputs := if call.value.Result? && call.value.outputs.Some? then call.value.outputs.value else [];
      assert Answers(t, s, input, context, outputs);
    }
  }

  /** A transition succeeds with an outcome if and only if the state offers it, its guard allows it
      and the outcome is made of what its reducer returned. */
  lemma TransitionSucceedsIff<C(!new), I(!new), O(!new)>(
    rules: DataRules<C, I, O>, d: Definition<C, I, O>, s: Snapshot<C>, input: Input<I>, o: Outcome<C, O>)
    requires ValidDefinition(d) && d.states.Has(s.state)
    ensures TransitionPrepared(rules, d, s, input) == Ok(o) <==>
            exists t, context :: Offered(rules, d, s, input, t) && Allows(t, s, input)
                                 && Answers(t, s, input, context, o.outputs) && MadeOf(rules, d, s, t, context, o)
  {
    hide Answers, MadeOf, Reduce, Sound;
    var on := d.states.entries[s.state].on;
    if input.inputType.Some? && on.Has(input.inputType.value) {
      ReduceMakes(rules, d, on.entries[input.inputType.value], s, input, o);
    }
  }

  /** What a refusal says: a guard's refusal, its own error or its throw, then the reducer's throw or
      its malformed result, then a context that cannot be copied. */
  lemma RefusalIsNamed<C(!new), I(!new), O(!new)>(
    rules: DataRules<C, I, O>, d: Definition<C, I, O>, s: Snapshot<C>, input: Input<I>, t: Transition<C, I, O>)
    requires ValidDefinition(d) && Offered(rules, d, s, input, t)
    ensures var r := TransitionPrepared(rules, d, s, input);
            && (t.guard.Some? ==>
                  match t.guard.value(s.state, s.context, input)
                  case Returned(Allow) => true
                  case Returned(Deny) => r == Err(GuardRejected)
                  case Returned(Reject(e)) => r == Err(GuardError(e))
                  case Returned(NotAnAnswer) => r == Err(InvalidGuardResult)
                  case Threw(e) => r == Err(CallbackThrew(e)))
            && (Allows(t, s, input) && t.reduce.Some? ==>
                  match t.reduce.value(s.state, s.context, input)
                  case Threw(e) => r == Err(CallbackThrew(e))
                  case Returned(NotAResult) => r == Err(InvalidResult)
                  case Returned(Nothing) => true
                  case Returned(Result(context, _)) =>
                    context.Some? && !rules.context(context.value) ==> r == Err(InvalidContext))
  {
    hide InvariantProblem, ValidNode;
  }
}
