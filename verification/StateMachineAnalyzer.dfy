/** Static analysis of a state machine: the transition graph built from the definition, a
    worklist visit of it in both directions, and the exact meaning of the two state lists. */
module StateMachineAnalyzers {
  import opened StateMachines
  import opened StringOrder

  datatype Diagnostic =
    | UnreachableState(state: string)
    | StructuralDeadEnd(state: string)
    | NoTerminalPath(state: string)

  datatype Description = Description(state: string, inputType: string, target: string, guarded: bool)

  datatype Analysis = Analysis(
    diagnostics: seq<Diagnostic>,
    transitions: seq<Description>,
    structurallyReachable: seq<string>,
    withTerminalPath: seq<string>)

  type Graph = map<string, seq<string>>

  /** Every edge leads to a node of the graph. */
  ghost predicate Closed(g: Graph) {
    forall s, i :: s in g && 0 <= i < |g[s]| ==> g[s][i] in g
  }

  ghost predicate Walk(g: Graph, p: seq<string>) {
    && |p| > 0
    && (forall i :: 0 <= i < |p| ==> p[i] in g)
    && (forall i :: 0 <= i < |p| - 1 ==> p[i + 1] in g[p[i]])
  }

  ghost predicate Reached(g: Graph, starts: seq<string>, s: string) {
    exists p :: Walk(g, p) && p[0] in starts && p[|p| - 1] == s
  }

  lemma ReachedExtends(g: Graph, starts: seq<string>, s: string, next: string)
    requires Reached(g, starts, s) && s in g && next in g[s] && next in g
    ensures Reached(g, starts, next)
  {
    var p :| Walk(g, p) && p[0] in starts && p[|p| - 1] == s;
    var q := p + [next];
    assert Walk(g, q) && q[0] in starts && q[|q| - 1] == next;
  }

  lemma StartIsReached(g: Graph, starts: seq<string>, s: string)
    requires s in starts && s in g
    ensures Reached(g, starts, s)
  {
    assert Walk(g, [s]);
  }

  /** A set with the starts that every edge stays inside contains every walk. */
  lemma {:induction false} WalkStaysInside(g: Graph, inside: set<string>, p: seq<string>)
    requires Walk(g, p) && p[0] in inside
    requires forall s, n :: s in inside && s in g && n in g[s] ==> n in inside
    ensures p[|p| - 1] in inside
    decreases |p|
  {
    if |p| > 1 {
      WalkStaysInside(g, inside, p[..|p| - 1]);
    }
  }

  /** Pushes the edges not visited yet. */
  method PushNext(edges: seq<string>, visited: set<string>, pending: seq<string>) returns (after: seq<string>)
    ensures |after| >= |pending| && after[..|pending|] == pending
    ensures forall x :: x in after <==> x in pending || (x in edges && x !in visited)
  {
    after := pending;
    for i := 0 to |edges|
      invariant |after| >= |pending| && after[..|pending|] == pending
      invariant forall x :: x in after <==> x in pending || (x in edges[..i] && x !in visited)
    {
      assert forall x :: x in edges[..i + 1] <==> x in edges[..i] || x == edges[i];
      if edges[i] !in visited {
        after := after + [edges[i]];
      }
    }
    assert edges[..|edges|] == edges;
  }

  /** Where the worklist stands. */
  ghost predicate Visiting(g: Graph, starts: seq<string>, visited: set<string>, pending: seq<string>) {
    && visited <= g.Keys
    && (forall x :: x in pending ==> x in g && Reached(g, starts, x))
    && (forall x :: x in visited ==> Reached(g, starts, x))
    && (forall x :: x in starts ==> x in visited || x in pending)
    && (forall x, n :: x in visited && n in g[x] ==> n in visited || n in pending)
  }

  lemma VisitStep(g: Graph, starts: seq<string>, visited: set<string>, rest: seq<string>, state: string,
                  after: seq<string>)
    requires Closed(g) && Visiting(g, starts, visited, rest + [state]) && state !in visited
    requires forall x :: x in after <==> x in rest || (x in g[state] && x !in visited + {state})
    ensures Visiting(g, starts, visited + {state}, after)
  {
    assert state in rest + [state];
    assert forall x :: x in rest ==> x in rest + [state];
    forall n | n in g[state] ensures n in g && Reached(g, starts, n) {
      ReachedExtends(g, starts, state, n);
    }
    hide Reached;
    assert forall x :: x in rest + [state] ==> x in visited + {state} || x in after;
  }

  lemma VisitSkip(g: Graph, starts: seq<string>, visited: set<string>, rest: seq<string>, state: string)
    requires Visiting(g, starts, visited, rest + [state]) && state in visited
    ensures Visiting(g, starts, visited, rest)
  {
    hide Reached;
    assert forall x :: x in rest + [state] ==> x in visited || x in rest;
    assert forall x :: x in rest ==> x in rest + [state];
  }

  lemma VisitStart(g: Graph, starts: seq<string>)
    requires forall s :: s in starts ==> s in g
    ensures Visiting(g, starts, {}, starts)
  {
    forall x | x in starts ensures Reached(g, starts, x) {
      StartIsReached(g, starts, x);
    }
  }

  lemma VisitEnd(g: Graph, starts: seq<string>, visited: set<string>)
    requires Visiting(g, starts, visited, [])
    ensures forall s :: s in visited <==> Reached(g, starts, s)
  {
    forall s | Reached(g, starts, s) ensures s in visited {
      var p :| Walk(g, p) && p[0] in starts && p[|p| - 1] == s;
      WalkStaysInside(g, visited, p);
    }
  }

  /** The states reached from the starts, no more and no less. */
  method VisitGraph(starts: seq<string>, g: Graph) returns (visited: set<string>)
    requires Closed(g) && forall s :: s in starts ==> s in g
    ensures forall s :: s in visited <==> Reached(g, starts, s)
  {
    hide Reached, Closed;
    visited := {};
    var pending := starts;
    VisitStart(g, starts);
    while |pending| > 0
      invariant Visiting(g, starts, visited, pending)
      decreases g.Keys - visited, |pending|
    {
      var state := pending[|pending| - 1];
      var rest := pending[..|pending| - 1];
      assert pending == rest + [state];
      if state in visited {
        VisitSkip(g, starts, visited, rest, state);
        pending := rest;
      } else {
        var after := PushNext(g[state], visited + {state}, rest);
        VisitStep(g, starts, visited, rest, state, after);
        visited := visited + {state};
        pending := after;
      }
    }
    assert pending == [];
    VisitEnd(g, starts, visited);
  }

  // ---- the graph of a definition ----

  ghost predicate IsTransition<C(!new), I(!new), O(!new)>(d: Definition<C, I, O>, x: Description) {
    && d.states.Has(x.state)
    && d.states.entries[x.state].on.Has(x.inputType)
    && var t := d.states.entries[x.state].on.entries[x.inputType];
       x.target == t.target && x.guarded == t.guard.Some?
  }

  ghost predicate Joins(transitions: seq<Description>, source: string, target: string) {
    exists x :: x in transitions && x.state == source && x.target == target
  }

  /** Both adjacency maps list exactly the transitions. */
  ghost predicate Mirrors(outgoing: Graph, incoming: Graph, transitions: seq<Description>, nodes: set<string>) {
    && outgoing.Keys == nodes && incoming.Keys == nodes
    && (forall x :: x in transitions ==> x.state in nodes && x.target in nodes)
    && (forall s, t :: s in nodes ==> (t in outgoing[s] <==> Joins(transitions, s, t)))
    && (forall s, t :: t in nodes ==> (s in incoming[t] <==> Joins(transitions, s, t)))
  }

  lemma JoinsAppend(transitions: seq<Description>, x: Description, source: string, target: string)
    ensures Joins(transitions + [x], source, target)
       <==> Joins(transitions, source, target) || (x.state == source && x.target == target)
  {
    assert x in transitions + [x];
    if Joins(transitions, source, target) {
      var y :| y in transitions && y.state == source && y.target == target;
      assert y in transitions + [x];
    }
  }

  function Push(g: Graph, s: string, t: string): Graph
    requires s in g
  {
    g[s := g[s] + [t]]
  }

  lemma MirrorsAppend(outgoing: Graph, incoming: Graph, transitions: seq<Description>, nodes: set<string>,
                      x: Description)
    requires Mirrors(outgoing, incoming, transitions, nodes) && x.state in nodes && x.target in nodes
    ensures Mirrors(Push(outgoing, x.state, x.target), Push(incoming, x.target, x.state), transitions + [x], nodes)
  {
    forall s, t
      ensures Joins(transitions + [x], s, t) <==> Joins(transitions, s, t) || (x.state == s && x.target == t) {
      JoinsAppend(transitions, x, s, t);
    }
    hide Joins;
  }

  /** Described so far: everything of the states done and of the first input types of the next. */
  ghost predicate Described<C(!new), I(!new), O(!new)>(
    d: Definition<C, I, O>, transitions: seq<Description>, done: seq<string>, state: string, inputs: seq<string>) {
    forall x :: x in transitions <==>
      IsTransition(d, x) && (x.state in done || (x.state == state && x.inputType in inputs))
  }

  lemma DescribedAppend<C(!new), I(!new), O(!new)>(
    d: Definition<C, I, O>, transitions: seq<Description>, done: seq<string>, state: string,
    inputs: seq<string>, x: Description)
    requires Described(d, transitions, done, state, inputs)
    requires IsTransition(d, x) && x.state == state
    ensures Described(d, transitions + [x], done, state, inputs + [x.inputType])
  {
    forall y ensures y in transitions + [x] <==>
        IsTransition(d, y) && (y.state in done || (y.state == state && y.inputType in inputs + [x.inputType])) {
      if IsTransition(d, y) && y.state == state && y.inputType == x.inputType {
        assert y == x;
      }
    }
  }

  lemma DescribedStart<C(!new), I(!new), O(!new)>(
    d: Definition<C, I, O>, transitions: seq<Description>, done: seq<string>, state: string, inputs: seq<string>)
    requires Described(d, transitions, done, "", [])
    ensures Described(d, transitions, done, state, inputs[..0])
  {
  }

  lemma DescribedNext<C(!new), I(!new), O(!new)>(
    d: Definition<C, I, O>, transitions: seq<Description>, done: seq<string>, state: string, inputs: seq<string>)
    requires Described(d, transitions, done, state, inputs[..|inputs|]) && d.states.Has(state)
    requires forall i :: i in inputs <==> d.states.entries[state].on.Has(i)
    ensures Described(d, transitions, done + [state], "", [])
  {
    assert inputs[..|inputs|] == inputs;
  }

  lemma NothingDescribed<C(!new), I(!new), O(!new)>(d: Definition<C, I, O>, states: seq<string>, empty: Graph)
    requires forall s :: s in states <==> d.states.Has(s)
    requires empty == map s | s in states :: []
    ensures Described(d, [], [], "", []) && Mirrors(empty, empty, [], d.states.entries.Keys)
  {
  }

  lemma AllDescribed<C(!new), I(!new), O(!new)>(d: Definition<C, I, O>, states: seq<string>,
                                                transitions: seq<Description>)
    requires forall s :: s in states <==> d.states.Has(s)
    requires Described(d, transitions, states, "", [])
    ensures forall x :: x in transitions <==> IsTransition(d, x)
  {
  }

  /** The transitions in order of state and input type, with both adjacency maps. */
  method BuildGraph<C(!new), I(!new), O(!new)>(d: Definition<C, I, O>, states: seq<string>)
    returns (outgoing: Graph, incoming: Graph, transitions: seq<Description>)
    requires ValidDefinition(d) && forall s :: s in states <==> d.states.Has(s)
    ensures forall x :: x in transitions <==> IsTransition(d, x)
    ensures Mirrors(outgoing, incoming, transitions, d.states.entries.Keys)
  {
    outgoing := map s | s in states :: [];
    incoming := map s | s in states :: [];
    transitions := [];
    NothingDescribed(d, states, outgoing);
    hide Mirrors, Described, IsTransition, ValidDefinition;
    for i := 0 to |states|
      invariant Described(d, transitions, states[..i], "", [])
      invariant Mirrors(outgoing, incoming, transitions, d.states.entries.Keys)
    {
      assert states[i] in states;
      assert states[..i + 1] == states[..i] + [states[i]];
      outgoing, incoming, transitions := AddState(d, states[..i], states[i], outgoing, incoming, transitions);
    }
    assert states[..|states|] == states;
    AllDescribed(d, states, transitions);
  }

  lemma InputsOf<C(!new), I(!new), O(!new)>(d: Definition<C, I, O>, state: string)
    requires ValidDefinition(d) && d.states.Has(state)
    ensures forall i :: i in SortedKeys(d.states.entries[state].on.order) <==> d.states.entries[state].on.Has(i)
  {
    assert ValidNode(d, d.states.entries[state]);
    SortedKeysSorts(d.states.entries[state].on.order);
  }

  /** One more transition described and mirrored. */
  lemma AddTransition<C(!new), I(!new), O(!new)>(
    d: Definition<C, I, O>, done: seq<string>, state: string, inputs: seq<string>, inputType: string,
    outgoing: Graph, incoming: Graph, transitions: seq<Description>)
    requires ValidDefinition(d) && d.states.Has(state) && d.states.entries[state].on.Has(inputType)
    requires Described(d, transitions, done, state, inputs)
    requires Mirrors(outgoing, incoming, transitions, d.states.entries.Keys)
    ensures inputType in d.states.entries[state].on.entries
    ensures var t := d.states.entries[state].on.entries[inputType];
            && state in outgoing && t.target in incoming
            && Described(d, transitions + [Description(state, inputType, t.target, t.guard.Some?)],
                         done, state, inputs + [inputType])
            && Mirrors(Push(outgoing, state, t.target), Push(incoming, t.target, state),
                       transitions + [Description(state, inputType, t.target, t.guard.Some?)],
                       d.states.entries.Keys)
  {
    assert ValidNode(d, d.states.entries[state]);
    var t := d.states.entries[state].on.entries[inputType];
    var x := Description(state, inputType, t.target, t.guard.Some?);
    assert IsTransition(d, x);
    DescribedAppend(d, transitions, done, state, inputs, x);
    MirrorsAppend(outgoing, incoming, transitions, d.states.entries.Keys, x);
    hide Described, IsTransition, ValidDefinition;
  }

  method AddState<C(!new), I(!new), O(!new)>(
    d: Definition<C, I, O>, ghost done: seq<string>, state: string,
    outgoing0: Graph, incoming0: Graph, transitions0: seq<Description>)
    returns (outgoing: Graph, incoming: Graph, transitions: seq<Description>)
    requires ValidDefinition(d) && d.states.Has(state)
    requires Described(d, transitions0, done, "", [])
    requires Mirrors(outgoing0, incoming0, transitions0, d.states.entries.Keys)
    ensures Described(d, transitions, done + [state], "", [])
    ensures Mirrors(outgoing, incoming, transitions, d.states.entries.Keys)
  {
    outgoing, incoming, transitions := outgoing0, incoming0, transitions0;
    var on := d.states.entries[state].on;
    var inputTypes := SortedKeys(on.order);
    hide *;
    InputsOf(d, state);
    DescribedStart(d, transitions, done, state, inputTypes);
    for j := 0 to |inputTypes|
      invariant Described(d, transitions, done, state, inputTypes[..j])
      invariant Mirrors(outgoing, incoming, transitions, d.states.entries.Keys)
    {
      outgoing, incoming, transitions := AddInput(d, done, state, inputTypes, j, outgoing, incoming, transitions);
    }
    DescribedNext(d, transitions, done, state, inputTypes);
  }

  /** One entry of a state's transitions. */
  method AddInput<C(!new), I(!new), O(!new)>(
    d: Definition<C, I, O>, ghost done: seq<string>, state: string, inputTypes: seq<string>, j: nat,
    outgoing0: Graph, incoming0: Graph, transitions0: seq<Description>)
    returns (outgoing: Graph, incoming: Graph, transitions: seq<Description>)
    requires ValidDefinition(d) && d.states.Has(state) && j < |inputTypes|
    requires forall i :: i in inputTypes <==> d.states.entries[state].on.Has(i)
    requires Described(d, transitions0, done, state, inputTypes[..j])
    requires Mirrors(outgoing0, incoming0, transitions0, d.states.entries.Keys)
    ensures Described(d, transitions, done, state, inputTypes[..j + 1])
    ensures Mirrors(outgoing, incoming, transitions, d.states.entries.Keys)
  {
    var inputType := inputTypes[j];
    assert inputType in inputTypes;
    assert inputTypes[..j + 1] == inputTypes[..j] + [inputType];
    AddTransition(d, done, state, inputTypes[..j], inputType, outgoing0, incoming0, transitions0);
    var t := d.states.entries[state].on.entries[inputType];
    outgoing := Push(outgoing0, state, t.target);
    incoming := Push(incoming0, t.target, state);
    transitions := transitions0 + [Description(state, inputType, t.target, t.guard.Some?)];
    hide *;
  }

  lemma MirrorKeys(outgoing: Graph, incoming: Graph, transitions: seq<Description>, nodes: set<string>)
    requires Mirrors(outgoing, incoming, transitions, nodes)
    ensures outgoing.Keys == nodes && incoming.Keys == nodes
  {
  }

  // ---- walks of the maps and walks of the definition ----

  lemma MirroredEdges<C(!new), I(!new), O(!new)>(
    d: Definition<C, I, O>, outgoing: Graph, incoming: Graph, transitions: seq<Description>)
    requires ValidDefinition(d)
    requires forall x :: x in transitions <==> IsTransition(d, x)
    requires Mirrors(outgoing, incoming, transitions, d.states.entries.Keys)
    ensures Closed(outgoing) && Closed(incoming)
    ensures forall s, t :: d.states.Has(s) ==> (t in outgoing[s] <==> Edge(d, s, t))
    ensures forall s, t :: d.states.Has(t) ==> (s in incoming[t] <==> Edge(d, s, t))
    ensures forall s, t :: Edge(d, s, t) ==> d.states.Has(t)
  {
    forall s, t ensures Edge(d, s, t) <==> Joins(transitions, s, t)
                ensures Edge(d, s, t) ==> d.states.Has(t) {
      if Edge(d, s, t) {
        var i :| d.states.entries[s].on.Has(i) && d.states.entries[s].on.entries[i].target == t;
        assert ValidNode(d, d.states.entries[s]);
        var x := Description(s, i, t, d.states.entries[s].on.entries[i].guard.Some?);
        assert x in transitions;
      }
    }
    hide Edge, Joins;
    forall s, i | s in outgoing && 0 <= i < |outgoing[s]| ensures outgoing[s][i] in outgoing {
      assert outgoing[s][i] in outgoing[s];
    }
    forall t, i | t in incoming && 0 <= i < |incoming[t]| ensures incoming[t][i] in incoming {
      assert incoming[t][i] in incoming[t];
      assert Joins(transitions, incoming[t][i], t);
      JoinsKnown(outgoing, incoming, transitions, d.states.entries.Keys, incoming[t][i], t);
    }
  }

  lemma JoinsKnown(outgoing: Graph, incoming: Graph, transitions: seq<Description>, nodes: set<string>, s: string,
                   t: string)
    requires Mirrors(outgoing, incoming, transitions, nodes) && Joins(transitions, s, t)
    ensures s in nodes && t in nodes
  {
  }

  lemma {:induction false} OutgoingWalkLeads<C(!new), I(!new), O(!new)>(d: Definition<C, I, O>, g: Graph,
                                                                        p: seq<string>)
    requires g.Keys == d.states.entries.Keys && Walk(g, p)
    requires forall s, t :: d.states.Has(s) ==> (t in g[s] <==> Edge(d, s, t))
    ensures Leads(d, p[0], p[|p| - 1])
    decreases |p|
  {
    if |p| == 1 {
      WalkStays(d, p[0]);
    } else {
      var q := p[..|p| - 1];
      OutgoingWalkLeads(d, g, q);
      WalkExtends(d, p[0], q[|q| - 1], p[|p| - 1]);
    }
  }

  lemma {:induction false} IncomingWalkLeads<C(!new), I(!new), O(!new)>(d: Definition<C, I, O>, g: Graph,
                                                                        p: seq<string>)
    requires g.Keys == d.states.entries.Keys && Walk(g, p)
    requires forall s, t :: d.states.Has(t) ==> (s in g[t] <==> Edge(d, s, t))
    ensures Leads(d, p[|p| - 1], p[0])
    decreases |p|
  {
    if |p| == 1 {
      WalkStays(d, p[0]);
    } else {
      var q := p[..|p| - 1];
      IncomingWalkLeads(d, g, q);
      WalkPrepends(d, p[|p| - 1], q[|q| - 1], p[0]);
    }
  }

  lemma {:induction false} LeadsIsReached<C(!new), I(!new), O(!new)>(
    d: Definition<C, I, O>, g: Graph, starts: seq<string>, p: seq<string>)
    requires g.Keys == d.states.entries.Keys && IsWalk(d, p) && p[0] in starts
    requires forall s, t :: d.states.Has(s) ==> (t in g[s] <==> Edge(d, s, t))
    requires forall s, t :: Edge(d, s, t) ==> d.states.Has(t)
    ensures Reached(g, starts, p[|p| - 1])
    decreases |p|
  {
    if |p| == 1 {
      StartIsReached(g, starts, p[0]);
    } else {
      var q := p[..|p| - 1];
      LeadsIsReached(d, g, starts, q);
      assert Edge(d, p[|p| - 2], p[|p| - 1]);
      ReachedExtends(g, starts, q[|q| - 1], p[|p| - 1]);
    }
  }

  lemma {:induction false} LeadsIsReachedBack<C(!new), I(!new), O(!new)>(
    d: Definition<C, I, O>, g: Graph, starts: seq<string>, p: seq<string>)
    requires g.Keys == d.states.entries.Keys && IsWalk(d, p) && p[|p| - 1] in starts && d.states.Has(p[|p| - 1])
    requires forall s, t :: d.states.Has(t) ==> (s in g[t] <==> Edge(d, s, t))
    requires forall s, t :: Edge(d, s, t) ==> d.states.Has(t)
    ensures Reached(g, starts, p[0])
    decreases |p|
  {
    if |p| == 1 {
      StartIsReached(g, starts, p[0]);
    } else {
      var q := p[1..];
      assert Edge(d, p[0], p[1]);
      forall i | 0 <= i < |q| - 1 ensures Edge(d, q[i], q[i + 1]) {
        assert Edge(d, p[i + 1], p[i + 2]);
      }
      LeadsIsReachedBack(d, g, starts, q);
      ReachedExtends(g, starts, q[0], p[0]);
    }
  }

  // ---- the analysis ----

  /** The members of a list that are in a set, in order. */
  function Keep(states: seq<string>, kept: set<string>): seq<string> {
    if |states| == 0 then []
    else Keep(states[..|states| - 1], kept) + if states[|states| - 1] in kept then [states[|states| - 1]] else []
  }

  lemma {:induction false} KeepMembers(states: seq<string>, kept: set<string>)
    ensures forall s :: s in Keep(states, kept) <==> s in states && s in kept
    ensures StrictlySorted(states) ==> StrictlySorted(Keep(states, kept))
  {
    if |states| > 0 {
      KeepMembers(states[..|states| - 1], kept);
      assert states == states[..|states| - 1] + [states[|states| - 1]];
      var init := Keep(states[..|states| - 1], kept);
      if StrictlySorted(states) {
        forall i | 0 <= i < |init| ensures Less(init[i], states[|states| - 1]) {
          assert init[i] in states[..|states| - 1];
        }
      }
    }
  }

  /** The states of a set as diagnostics, in order. */
  method Diagnose(states: seq<string>, listed: set<string>, code: string -> Diagnostic)
    returns (diagnostics: seq<Diagnostic>)
    ensures forall x :: x in diagnostics <==> exists s :: s in states && s in listed && x == code(s)
  {
    diagnostics := [];
    for i := 0 to |states|
      invariant forall x :: x in diagnostics <==> exists s :: s in states[..i] && s in listed && x == code(s)
    {
      ghost var before := diagnostics;
      assert states[..i + 1] == states[..i] + [states[i]];
      if states[i] in listed {
        diagnostics := diagnostics + [code(states[i])];
      }
      forall x ensures x in diagnostics <==> exists s :: s in states[..i + 1] && s in listed && x == code(s) {
        if x in before {
          var s :| s in states[..i] && s in listed && x == code(s);
          assert s in states[..i + 1];
        }
        if states[i] in listed {
          assert states[i] in states[..i + 1];
        }
      }
    }
    assert states[..|states|] == states;
  }

  ghost predicate IsDeadEnd<C(!new), I(!new), O(!new)>(d: Definition<C, I, O>, s: string) {
    d.states.Has(s) && !IsTerminal(d, s) && forall t :: !Edge(d, s, t)
  }

  /** What each part of an analysis says, exactly. */
  ghost predicate Exact<C(!new), I(!new), O(!new)>(d: Definition<C, I, O>, a: Analysis) {
    && StrictlySorted(a.structurallyReachable) && StrictlySorted(a.withTerminalPath)
    && (forall s :: s in a.structurallyReachable <==> Leads(d, d.initial, s))
    && (forall s :: s in a.withTerminalPath <==> LeadsToTerminal(d, s))
    && (forall x :: x in a.transitions <==> IsTransition(d, x))
    && (forall s :: UnreachableState(s) in a.diagnostics <==> d.states.Has(s) && !Leads(d, d.initial, s))
    && (forall s :: StructuralDeadEnd(s) in a.diagnostics <==> IsDeadEnd(d, s))
    && (forall s :: NoTerminalPath(s) in a.diagnostics <==> d.states.Has(s) && !LeadsToTerminal(d, s))
  }

  lemma ReachableIsExact<C(!new), I(!new), O(!new)>(d: Definition<C, I, O>, g: Graph)
    requires ValidDefinition(d) && g.Keys == d.states.entries.Keys
    requires forall s, t :: d.states.Has(s) ==> (t in g[s] <==> Edge(d, s, t))
    requires forall s, t :: Edge(d, s, t) ==> d.states.Has(t)
    ensures forall s :: Reached(g, [d.initial], s) <==> Leads(d, d.initial, s)
    ensures forall s :: Reached(g, [d.initial], s) ==> d.states.Has(s)
  {
    forall s | Reached(g, [d.initial], s) ensures Leads(d, d.initial, s) && d.states.Has(s) {
      var p :| Walk(g, p) && p[0] in [d.initial] && p[|p| - 1] == s;
      OutgoingWalkLeads(d, g, p);
    }
    forall s | Leads(d, d.initial, s) ensures Reached(g, [d.initial], s) {
      var p :| IsWalk(d, p) && p[0] == d.initial && p[|p| - 1] == s;
      LeadsIsReached(d, g, [d.initial], p);
    }
  }

  lemma TerminalPathIsExact<C(!new), I(!new), O(!new)>(d: Definition<C, I, O>, g: Graph, terminals: seq<string>)
    requires ValidDefinition(d) && g.Keys == d.states.entries.Keys
    requires forall s :: s in terminals <==> IsTerminal(d, s)
    requires forall s, t :: d.states.Has(t) ==> (s in g[t] <==> Edge(d, s, t))
    requires forall s, t :: Edge(d, s, t) ==> d.states.Has(t)
    ensures forall s :: Reached(g, terminals, s) <==> LeadsToTerminal(d, s)
    ensures forall s :: Reached(g, terminals, s) ==> d.states.Has(s)
  {
    forall s | Reached(g, terminals, s) ensures LeadsToTerminal(d, s) && d.states.Has(s) {
      var p :| Walk(g, p) && p[0] in terminals && p[|p| - 1] == s;
      IncomingWalkLeads(d, g, p);
      assert IsTerminal(d, p[0]);
    }
    forall s | LeadsToTerminal(d, s) ensures Reached(g, terminals, s) {
      var t :| IsTerminal(d, t) && Leads(d, s, t);
      var p :| IsWalk(d, p) && p[0] == s && p[|p| - 1] == t;
      LeadsIsReachedBack(d, g, terminals, p);
    }
  }

  /** The three kinds of diagnostics, one after another. */
  method DiagnoseAll(states: seq<string>, unreachable: set<string>, stuck: set<string>, endless: set<string>)
    returns (diagnostics: seq<Diagnostic>)
    requires forall s :: s in unreachable || s in stuck || s in endless ==> s in states
    ensures forall s :: UnreachableState(s) in diagnostics <==> s in unreachable
    ensures forall s :: StructuralDeadEnd(s) in diagnostics <==> s in stuck
    ensures forall s :: NoTerminalPath(s) in diagnostics <==> s in endless
  {
    var a := Diagnose(states, unreachable, s => UnreachableState(s));
    var b := Diagnose(states, stuck, s => StructuralDeadEnd(s));
    var c := Diagnose(states, endless, s => NoTerminalPath(s));
    diagnostics := a + b + c;
  }

  lemma Assemble<C(!new), I(!new), O(!new)>(
    d: Definition<C, I, O>, states: seq<string>, transitions: seq<Description>, diagnostics: seq<Diagnostic>,
    reachable: set<string>, terminating: set<string>, stuck: set<string>)
    requires StrictlySorted(states) && forall s :: s in states <==> d.states.Has(s)
    requires forall s :: s in reachable <==> Leads(d, d.initial, s)
    requires forall s :: s in terminating <==> LeadsToTerminal(d, s)
    requires forall s :: s in reachable || s in terminating ==> d.states.Has(s)
    requires forall s :: s in stuck <==> IsDeadEnd(d, s)
    requires forall x :: x in transitions <==> IsTransition(d, x)
    requires forall s :: UnreachableState(s) in diagnostics <==> s in states && s !in reachable
    requires forall s :: StructuralDeadEnd(s) in diagnostics <==> s in stuck
    requires forall s :: NoTerminalPath(s) in diagnostics <==> s in states && s !in terminating
    ensures Exact(d, Analysis(diagnostics, transitions, Keep(states, reachable), Keep(states, terminating)))
  {
    KeepMembers(states, reachable);
    KeepMembers(states, terminating);
    hide Keep, IsDeadEnd, Leads, LeadsToTerminal, StrictlySorted, IsTransition;
  }

  lemma StatesOf<C(!new), I(!new), O(!new)>(d: Definition<C, I, O>)
    requires ValidDefinition(d)
    ensures StrictlySorted(SortedKeys(d.states.order))
    ensures forall s :: s in SortedKeys(d.states.order) <==> d.states.Has(s)
    ensures forall s :: s in SortedKeys(d.states.order) <==> s in d.states.entries
  {
    SortedKeysSorts(d.states.order);
  }

  lemma TerminalsOf<C(!new), I(!new), O(!new)>(d: Definition<C, I, O>, states: seq<string>, terminals: set<string>)
    requires forall s :: s in states <==> s in d.states.entries
    requires terminals == set s | s in states && d.states.entries[s].terminal
    ensures forall s :: s in Keep(states, terminals) <==> IsTerminal(d, s)
  {
    KeepMembers(states, terminals);
  }

  /** Analyses the graph without running any callback; a guarded transition counts as possible. */
  method Analyze<C(!new), I(!new), O(!new)>(d: Definition<C, I, O>) returns (analysis: Analysis)
    requires ValidDefinition(d)
    ensures Exact(d, analysis)
  {
    var states := SortedKeys(d.states.order);
    StatesOf(d);
    hide *;
    var outgoing, incoming, transitions := BuildGraph(d, states);
    MirrorKeys(outgoing, incoming, transitions, d.states.entries.Keys);
    var terminalSet := set s | s in states && d.states.entries[s].terminal;
    TerminalsOf(d, states, terminalSet);
    var reachable, terminating := VisitBoth(d, outgoing, incoming, transitions, Keep(states, terminalSet));
    var stuck := set s | s in states && !d.states.entries[s].terminal && outgoing[s] == [];
    DeadEnds(d, outgoing, incoming, transitions, states, stuck);
    var unreachable := set s | s in states && s !in reachable;
    var endless := set s | s in states && s !in terminating;
    var diagnostics := DiagnoseAll(states, unreachable, stuck, endless);
    Assemble(d, states, transitions, diagnostics, reachable, terminating, stuck);
    analysis := Analysis(diagnostics, transitions, Keep(states, reachable), Keep(states, terminating));
  }

  /** Forwards from the initial state, backwards from the terminal ones. */
  method VisitBoth<C(!new), I(!new), O(!new)>(
    d: Definition<C, I, O>, outgoing: Graph, incoming: Graph, ghost transitions: seq<Description>,
    terminals: seq<string>)
    returns (reachable: set<string>, terminating: set<string>)
    requires ValidDefinition(d)
    requires forall x :: x in transitions <==> IsTransition(d, x)
    requires Mirrors(outgoing, incoming, transitions, d.states.entries.Keys)
    requires forall s :: s in terminals <==> IsTerminal(d, s)
    ensures forall s :: s in reachable <==> Leads(d, d.initial, s)
    ensures forall s :: s in terminating <==> LeadsToTerminal(d, s)
    ensures forall s :: s in reachable || s in terminating ==> d.states.Has(s)
  {
    MirroredEdges(d, outgoing, incoming, transitions);
    MirrorKeys(outgoing, incoming, transitions, d.states.entries.Keys);
    ReachableIsExact(d, outgoing);
    TerminalPathIsExact(d, incoming, terminals);
    hide Mirrors, Edge, Leads, LeadsToTerminal, Reached, IsTransition, Closed;
    reachable := VisitGraph([d.initial], outgoing);
    terminating := VisitGraph(terminals, incoming);
  }

  lemma DeadEnds<C(!new), I(!new), O(!new)>(
    d: Definition<C, I, O>, outgoing: Graph, incoming: Graph, transitions: seq<Description>, states: seq<string>,
    stuck: set<string>)
    requires ValidDefinition(d) && forall s :: s in states <==> d.states.Has(s)
    requires forall x :: x in transitions <==> IsTransition(d, x)
    requires Mirrors(outgoing, incoming, transitions, d.states.entries.Keys)
    requires stuck == set s | s in states && !d.states.entries[s].terminal && outgoing[s] == []
    ensures forall s :: s in stuck <==> IsDeadEnd(d, s)
  {
    MirroredEdges(d, outgoing, incoming, transitions);
    hide Edge, Mirrors, IsTransition, ValidDefinition;
    forall s ensures s in stuck <==> IsDeadEnd(d, s) {
      DeadEnd(d, outgoing, s);
    }
  }

  lemma DeadEnd<C(!new), I(!new), O(!new)>(d: Definition<C, I, O>, g: Graph, s: string)
    requires g.Keys == d.states.entries.Keys
    requires forall s, t :: d.states.Has(s) ==> (t in g[s] <==> Edge(d, s, t))
    ensures d.states.Has(s) ==> (g[s] == [] <==> forall t :: !Edge(d, s, t))
  {
    if d.states.Has(s) && g[s] != [] {
      assert g[s][0] in g[s];
    }
  }
}
