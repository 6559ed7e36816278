/** The recursive clone of machine data: one `seen` map and two counters shared by the whole
    traversal, copies created before their properties so that cycles find them. */
module GraphCloners {
  import opened Common
  import opened ObjectGraphs
  import opened FirstPaths

  datatype Problem = ContainsFunction | TooDeep | TooManyNodes | TooManyProperties

  ghost predicate Explains(s: Store, root: Value, problem: Problem) {
    match problem
    case ContainsFunction => ReachesFunction(s, root)
    case TooDeep => FirstTooDeep(s, root)
    case TooManyNodes => ReachesTooManyNodes(s, root)
    case TooManyProperties => ReachesTooManyKeys(s, root)
  }

  /** What the traversal knows after visiting `order`: the copies of all visited objects except
      those still open on the call stack are complete. */
  ghost predicate Traversed(s: Store, root: Value, after: Store, seen: map<Ref, Ref>, order: seq<Ref>, open: seq<Ref>) {
    && FreshCopies(s, after, seen)
    && AllReachable(s, root, order) && Distinct(order)
    && (forall r :: r in seen <==> r in order)
    && (forall r :: r in seen && r !in open ==> Copied(s[r], after[seen[r]], seen))
  }

  /** Later visits only add. */
  ghost predicate Extends(before: Store, seen0: map<Ref, Ref>, after: Store, seen: map<Ref, Ref>) {
    && (forall r :: r in before ==> r in after && after[r] == before[r])
    && (forall r :: r in seen0 ==> r in seen && seen[r] == seen0[r])
  }

  /** Later visits only add, except that one open copy also gains properties. */
  ghost predicate ExtendsBut(before: Store, seen0: map<Ref, Ref>, after: Store, seen: map<Ref, Ref>, copy: Ref) {
    && (forall r :: r in before && r != copy ==> r in after && after[r] == before[r])
    && (forall r :: r in seen0 ==> r in seen && seen[r] == seen0[r])
  }

  /** Where the call stack stands: a path of distinct open objects leading to the value. */
  ghost predicate StackOk(s: Store, root: Value, path: seq<Ref>, seen: map<Ref, Ref>, v: Value) {
    if |path| == 0 then v == root
    else
      && PathFrom(s, root, path) && Distinct(path)
      && (forall i :: 0 <= i < |path| ==> path[i] in seen)
      && Holds(s[path[|path| - 1]], v)
  }

  class Cloner {
    ghost const source: Store
    ghost const root: Value
    var store: Store
    var nextRef: Ref
    var seen: map<Ref, Ref>
    var nodes: nat
    var properties: nat
    /** The objects visited so far. */
    ghost var order: seq<Ref>

    ghost predicate Valid(open: seq<Ref>)
      reads this
    {
      && Closed(source) && IsIn(source, root)
      && Traversed(source, root, store, seen, order, open)
      && nodes == |order| <= MAX_NODES
      && properties == TotalKeys(source, order) <= MAX_PROPERTIES
      && (forall r :: r in store ==> r < nextRef)
    }

    /** `next` is past every object of the store: a source of fresh references. */
    constructor (store: Store, root: Value, next: Ref)
      requires Closed(store) && IsIn(store, root) && forall r :: r in store ==> r < next
      ensures Valid([]) && source == store && this.root == root && order == [] && this.store == store
    {
      this.source := store;
      this.root := root;
      this.store := store;
      this.nextRef := next;
      this.seen := map[];
      this.nodes := 0;
      this.properties := 0;
      this.order := [];
    }

    /** Clones one value; `path` is the call stack, whose length is the depth. */
    method CloneValue(value: Value, depth: nat, ghost path: seq<Ref>, ghost ks: seq<nat>)
      returns (result: Result<Value, Problem>)
      requires Valid(path) && depth == |path| <= MAX_DEPTH + 1
      requires StackOk(source, root, path, seen, value) && OnTrail(source, root, path, ks, seen.Keys, value)
      modifies this
      ensures result.Err? ==> Explains(source, root, result.error)
      ensures result.Ok? ==>
                && Valid(path) && Extends(old(store), old(seen), store, seen)
                && IsMapped(seen, value) && result.value == Mapped(seen, value)
      ensures result.Ok? ==>
                && Visited(source, value, path, old(seen.Keys), seen.Keys)
                && !DeepBeyond(source, root, path, ks)
      decreases MAX_DEPTH + 1 - depth, 2
    {
      hide Traversed, StackOk, Closed, AllReachable, Distinct, CopiedUpTo, OnTrail, Visited, DeepBeyond, FirstTooDeep;
      TraversedFacts(source, root, store, seen, order, path);
      if value.FunctionValue? {
        FunctionExplains(source, root, path, seen);
        return Err(ContainsFunction);
      }
      if value.Primitive? {
        LeafIsNotDeep(source, root, path, ks, seen.Keys, value);
        LeafAddsNothing(source, value, path, seen.Keys);
        return Ok(value);
      }
      var r := value.ref;
      if depth > MAX_DEPTH {
        DeepHere(source, root, path, ks, seen.Keys, r);
        return Err(TooDeep);
      }
      if r in seen {
        SeenIsNotDeep(source, root, path, ks, seen.Keys, r);
        TraversedIsClosed(source, root, store, seen, order, path);
        SeenAddsNothing(source, path, seen.Keys, r);
        return Ok(Object(seen[r]));
      }
      StackReaches(source, root, path, seen, r);
      result := CloneObject(r, depth, path, ks);
    }

    /** Clones an object met for the first time. */
    method CloneObject(r: Ref, depth: nat, ghost path: seq<Ref>, ghost ks: seq<nat>)
      returns (result: Result<Value, Problem>)
      requires Valid(path) && depth == |path| <= MAX_DEPTH
      requires StackOk(source, root, path, seen, Object(r)) && OnTrail(source, root, path, ks, seen.Keys, Object(r))
      requires r in source && r !in seen && Reachable(source, root, r)
      modifies this
      ensures result.Err? ==> Explains(source, root, result.error)
      ensures result.Ok? ==>
                && Valid(path) && Extends(old(store), old(seen), store, seen)
                && r in seen && result.value == Object(seen[r])
      ensures result.Ok? ==>
                && Visited(source, Object(r), path, old(seen.Keys), seen.Keys)
                && !DeepBeyond(source, root, path, ks)
      decreases MAX_DEPTH + 1 - depth, 1
    {
      hide Traversed, StackOk, Closed, AllReachable, Distinct, CopiedUpTo, Explains, Extends, Reachable, TotalKeys;
      hide OnTrail, Visited, DeepBeyond;
      TraversedFacts(source, root, store, seen, order, path);
      TotalKeysAppend(source, order, r);
      nodes := nodes + 1;
      if nodes > MAX_NODES {
        TooManyNodesExplains(source, root, order, r);
        return Err(TooManyNodes);
      }
      assert r !in path by { StackIsSeen(source, root, path, seen, Object(r)); }
      ghost var seen0, store0 := seen, store;
      var copy := CreateCopy(r, path);
      ghost var seen1, store1 := seen, store;
      TraversedFacts(source, root, store, seen, order, path + [r]);
      properties := properties + OwnKeys(store[r]);
      if properties > MAX_PROPERTIES {
        TooManyKeysExplains(source, root, order);
        return Err(TooManyProperties);
      }
      StackGrows(source, root, path, seen0, seen, Object(r));
      var problem := CloneProperties(r, copy, depth, path, ks, seen0.Keys);
      if problem.Some? {
        return Err(problem.value);
      }
      ExtendsThrough(store0, seen0, store1, seen1, store, seen, copy);
      return Ok(Object(copy));
    }

    /** Registers an empty copy before any property is read. */
    method CreateCopy(r: Ref, ghost path: seq<Ref>) returns (copy: Ref)
      requires Closed(source) && r in source && r !in seen && Reachable(source, root, r)
      requires Traversed(source, root, store, seen, order, path)
      requires forall q :: q in store ==> q < nextRef
      modifies this`store, this`nextRef, this`seen, this`order
      ensures Traversed(source, root, store, seen, order, path + [r])
      ensures Extends(old(store), old(seen), store, seen)
      ensures r in seen && seen[r] == copy && copy !in old(store) && copy in store
      ensures seen.Keys == old(seen).Keys + {r}
      ensures CopiedUpTo(source[r], store[copy], seen, 0)
      ensures order == old(order) + [r]
      ensures forall q :: q in store ==> q < nextRef
    {
      copy := nextRef;
      CreateFacts(source, root, store, seen, order, path, r, copy);
      hide *;
      store := store[copy := Obj(store[r].isArray, store[r].length, [])];
      seen := seen[r := copy];
      order := order + [r];
      nextRef := nextRef + 1;
    }

    /** Clones the own properties one by one and defines each on the copy. */
    method CloneProperties(r: Ref, copy: Ref, depth: nat, ghost path: seq<Ref>, ghost ks: seq<nat>,
                           ghost before: set<Ref>)
      returns (problem: Option<Problem>)
      requires Valid(path + [r]) && depth == |path| <= MAX_DEPTH
      requires StackOk(source, root, path, seen, Object(r)) && r in source && r !in path
      requires r in seen && seen[r] == copy && copy in store
      requires CopiedUpTo(source[r], store[copy], seen, 0)
      requires OnTrail(source, root, path, ks, before, Object(r)) && r !in before && seen.Keys == before + {r}
      modifies this
      ensures problem.None? ==>
                && Visited(source, Object(r), path, before, seen.Keys)
                && !DeepBeyond(source, root, path, ks)
      ensures problem.Some? ==> Explains(source, root, problem.value)
      ensures problem.None? ==>
                && Valid(path)
                && r in seen && seen[r] == copy
                && ExtendsBut(old(store), old(seen), store, seen, copy)
      decreases MAX_DEPTH + 1 - depth, 0
    {
      hide Traversed, StackOk, Closed, CopiedUpTo, Extends, ExtendsBut, TotalKeys, Explains;
      hide OnTrail, Visited, VisitedUpTo, DeepBeyond;
      TraversedFacts(source, root, store, seen, order, path + [r]);
      ExtendsNothing(store, seen, copy);
      NothingVisitedYet(source, r, path, before);
      ghost var store1, seen1 := store, seen;
      var original := store[r];
      var i := 0;
      while i < |original.properties|
        invariant i <= |original.properties|
        invariant Valid(path + [r])
        invariant r in seen && seen[r] == copy && copy in store
        invariant CopiedUpTo(original, store[copy], seen, i)
        invariant ExtendsBut(store1, seen1, store, seen, copy)
        invariant VisitedUpTo(source, r, path, i, before, seen.Keys)
        invariant forall j: nat :: j < i ==> !DeepBeyond(source, root, path + [r], ks + [j])
      {
        OpensOnTrail(source, root, path, ks, before, r, i, seen.Keys);
        StackPushes(source, root, path, store1, seen1, store, seen, r, copy, i);
        ghost var store0, seen0 := store, seen;
        var cloned := CloneValue(original.properties[i].value, depth + 1, path + [r], ks + [i]);
        if cloned.Err? {
          return Some(cloned.error);
        }
        NextVisited(source, r, path, i, before, seen0.Keys, seen.Keys);
        SeenStays(store0, seen0, store, seen, r);
        DefineKeepsTraversed(source, root, store, seen, order, path + [r], r,
                             Property(original.properties[i].name, cloned.value));
        DefineExtends(original, store0, seen0, store, seen, copy, i);
        ExtendsButThrough(store1, seen1, store0, seen0, store, seen, copy,
                          Defined(store[copy], Property(original.properties[i].name, cloned.value)));
        store := store[copy := Defined(store[copy], Property(original.properties[i].name, cloned.value))];
        i := i + 1;
      }
      DeepIsBelowSome(source, root, path, ks, before, r);
      AllPropertiesIsVisited(source, path, r, before, seen.Keys);
      CloseKeepsTraversed(source, root, store, seen, order, path, r);
      return None;
    }
  }

  function Defined(copy: Obj, p: Property): Obj {
    copy.(properties := copy.properties + [p])
  }

  // ---- evidence for failures ----

  lemma FunctionExplains(s: Store, root: Value, path: seq<Ref>, seen: map<Ref, Ref>)
    requires seen.Keys <= s.Keys && StackOk(s, root, path, seen, FunctionValue)
    ensures ReachesFunction(s, root)
  {
    if |path| > 0 {
      assert Reachable(s, root, path[|path| - 1]);
    }
  }

  /** Complete copies only refer to what was seen. */
  lemma TraversedIsClosed(s: Store, root: Value, after: Store, seen: map<Ref, Ref>, order: seq<Ref>, open: seq<Ref>)
    requires Traversed(s, root, after, seen, order, open)
    ensures SeenIsClosed(s, open, seen.Keys)
  {
    TraversedFacts(s, root, after, seen, order, open);
    forall r, c | r in seen && r !in open && Holds(s[r], Object(c)) ensures c in seen {
      var i :| 0 <= i < |s[r].properties| && s[r].properties[i].value == Object(c);
      assert Copied(s[r], after[seen[r]], seen);
      assert IsMapped(seen, s[r].properties[i].value);
    }
  }

  lemma StackReaches(s: Store, root: Value, path: seq<Ref>, seen: map<Ref, Ref>, r: Ref)
    requires Closed(s) && IsIn(s, root) && StackOk(s, root, path, seen, Object(r))
    ensures r in s && Reachable(s, root, r)
  {
    if |path| == 0 {
      RootIsReachable(s, r);
    } else {
      var last := path[|path| - 1];
      var i :| 0 <= i < |s[last].properties| && s[last].properties[i].value == Object(r);
      assert IsIn(s, s[last].properties[i].value);
      PathExtends(s, root, path, r);
      assert (path + [r])[|path|] == r;
    }
  }

  lemma TooManyKeysExplains(s: Store, root: Value, order: seq<Ref>)
    requires AllReachable(s, root, order) && Distinct(order) && TotalKeys(s, order) > MAX_PROPERTIES
    ensures Explains(s, root, TooManyProperties)
  {
  }

  lemma TooManyNodesExplains(s: Store, root: Value, order: seq<Ref>, r: Ref)
    requires AllReachable(s, root, order) && Distinct(order) && |order| == MAX_NODES
    requires r in s && Reachable(s, root, r) && r !in order
    ensures Explains(s, root, TooManyNodes)
  {
    var refs := order + [r];
    assert AllReachable(s, root, refs) && Distinct(refs) && |refs| > MAX_NODES;
  }

  // ---- the traversal invariant, step by step ----

  lemma TraversedFacts(s: Store, root: Value, after: Store, seen: map<Ref, Ref>, order: seq<Ref>, open: seq<Ref>)
    requires Traversed(s, root, after, seen, order, open)
    ensures seen.Keys <= s.Keys && AllReachable(s, root, order) && Distinct(order)
    ensures forall r :: r in seen <==> r in order
    ensures forall r :: r in seen ==> seen[r] in after
    ensures forall r :: r in s ==> r in after && after[r] == s[r]
    ensures forall i :: 0 <= i < |order| ==> order[i] in s
  {
  }

  lemma StackIsSeen(s: Store, root: Value, path: seq<Ref>, seen: map<Ref, Ref>, v: Value)
    requires StackOk(s, root, path, seen, v)
    ensures forall r :: r in path ==> r in seen
  {
  }

  lemma StackGrows(s: Store, root: Value, path: seq<Ref>, seen0: map<Ref, Ref>, seen: map<Ref, Ref>, v: Value)
    requires StackOk(s, root, path, seen0, v) && forall q :: q in seen0 ==> q in seen
    ensures StackOk(s, root, path, seen, v)
  {
  }

  lemma StackPushes(s: Store, root: Value, path: seq<Ref>, store0: Store, seen0: map<Ref, Ref>,
                    store: Store, seen: map<Ref, Ref>, r: Ref, copy: Ref, i: nat)
    requires StackOk(s, root, path, seen0, Object(r)) && r in s && r !in path && r in seen
    requires ExtendsBut(store0, seen0, store, seen, copy)
    requires i < |s[r].properties|
    ensures StackOk(s, root, path + [r], seen, s[r].properties[i].value)
  {
    assert Holds(s[r], s[r].properties[i].value);
    if |path| == 0 {
      assert PathFrom(s, root, [r]);
      assert path + [r] == [r];
    } else {
      PathExtends(s, root, path, r);
    }
  }

  lemma CreateKeepsFresh(s: Store, after: Store, seen: map<Ref, Ref>, r: Ref, copy: Ref, o: Obj)
    requires FreshCopies(s, after, seen) && r in s && r !in seen && copy !in after
    ensures FreshCopies(s, after[copy := o], seen[r := copy])
  {
    var after', seen' := after[copy := o], seen[r := copy];
    forall x | x in after' ensures x in s || exists q :: q in seen' && seen'[q] == x {
      if x == copy {
        assert seen'[r] == x;
      } else if x !in s {
        var q :| q in seen && seen[q] == x;
        assert seen'[q] == x;
      }
    }
  }

  lemma CreateKeepsTraversed(s: Store, root: Value, after: Store, seen: map<Ref, Ref>, order: seq<Ref>,
                             path: seq<Ref>, r: Ref, copy: Ref)
    requires Traversed(s, root, after, seen, order, path)
    requires r in s && r !in seen && Reachable(s, root, r) && copy !in after
    ensures Traversed(s, root, after[copy := Obj(s[r].isArray, s[r].length, [])], seen[r := copy],
                      order + [r], path + [r])
  {
    var after', seen', order' := after[copy := Obj(s[r].isArray, s[r].length, [])], seen[r := copy], order + [r];
    CreateKeepsFresh(s, after, seen, r, copy, after'[copy]);
    hide FreshCopies, AllReachable, Distinct;
    forall q | q in seen' && q !in path + [r] ensures Copied(s[q], after'[seen'[q]], seen') {
      assert q !in path by { assert q in path ==> q in path + [r]; }
      assert q != r by { assert r in path + [r]; }
      CopiedGrows(s[q], after[seen[q]], seen, seen', |s[q].properties|);
    }
  }

  lemma CreateFacts(s: Store, root: Value, after: Store, seen: map<Ref, Ref>, order: seq<Ref>,
                    path: seq<Ref>, r: Ref, copy: Ref)
    requires Traversed(s, root, after, seen, order, path)
    requires r in s && r !in seen && Reachable(s, root, r) && copy !in after
    ensures r in after
    ensures var o := Obj(after[r].isArray, after[r].length, []);
            && Traversed(s, root, after[copy := o], seen[r := copy], order + [r], path + [r])
            && Extends(after, seen, after[copy := o], seen[r := copy])
            && CopiedUpTo(s[r], o, seen[r := copy], 0)
  {
    TraversedFacts(s, root, after, seen, order, path);
    CreateKeepsTraversed(s, root, after, seen, order, path, r, copy);
    hide Traversed, Reachable;
  }

  lemma ExtendsThrough(store0: Store, seen0: map<Ref, Ref>, store1: Store, seen1: map<Ref, Ref>,
                       store2: Store, seen2: map<Ref, Ref>, copy: Ref)
    requires Extends(store0, seen0, store1, seen1) && copy !in store0
    requires ExtendsBut(store1, seen1, store2, seen2, copy)
    ensures Extends(store0, seen0, store2, seen2)
  {
  }

  lemma ExtendsButThrough(store0: Store, seen0: map<Ref, Ref>, store1: Store, seen1: map<Ref, Ref>,
                          store2: Store, seen2: map<Ref, Ref>, copy: Ref, o: Obj)
    requires ExtendsBut(store0, seen0, store1, seen1, copy) && Extends(store1, seen1, store2, seen2)
    ensures ExtendsBut(store0, seen0, store2[copy := o], seen2, copy)
  {
  }

  lemma SeenStays(store0: Store, seen0: map<Ref, Ref>, store: Store, seen: map<Ref, Ref>, r: Ref)
    requires Extends(store0, seen0, store, seen) && r in seen0
    ensures r in seen && seen[r] == seen0[r]
  {
  }

  lemma ExtendsNothing(store: Store, seen: map<Ref, Ref>, copy: Ref)
    ensures ExtendsBut(store, seen, store, seen, copy)
  {
  }

  lemma TotalKeysAppend(s: Store, order: seq<Ref>, r: Ref)
    requires r in s && forall i :: 0 <= i < |order| ==> order[i] in s
    ensures TotalKeys(s, order + [r]) == TotalKeys(s, order) + OwnKeys(s[r])
  {
    assert (order + [r])[..|order|] == order;
  }

  lemma CopiedGrows(o: Obj, copy: Obj, seen: map<Ref, Ref>, seen': map<Ref, Ref>, n: nat)
    requires CopiedUpTo(o, copy, seen, n)
    requires forall q :: q in seen ==> q in seen' && seen'[q] == seen[q]
    ensures CopiedUpTo(o, copy, seen', n)
  {
  }

  lemma DefineExtends(o: Obj, store0: Store, seen0: map<Ref, Ref>, store: Store, seen: map<Ref, Ref>, copy: Ref, i: nat)
    requires Extends(store0, seen0, store, seen) && copy in store0
    requires CopiedUpTo(o, store0[copy], seen0, i) && i < |o.properties|
    requires IsMapped(seen, o.properties[i].value)
    ensures copy in store
    ensures CopiedUpTo(o, Defined(store[copy], Property(o.properties[i].name, Mapped(seen, o.properties[i].value))),
                       seen, i + 1)
  {
    CopiedGrows(o, store[copy], seen0, seen, i);
  }

  /** Defining a property on an open copy disturbs no complete copy. */
  lemma DefineKeepsTraversed(s: Store, root: Value, after: Store, seen: map<Ref, Ref>, order: seq<Ref>,
                             open: seq<Ref>, r: Ref, p: Property)
    requires Traversed(s, root, after, seen, order, open) && r in seen && r in open
    ensures Traversed(s, root, after[seen[r] := Defined(after[seen[r]], p)], seen, order, open)
  {
    var after' := after[seen[r] := Defined(after[seen[r]], p)];
    assert FreshCopies(s, after', seen);
    forall q | q in seen && q !in open ensures Copied(s[q], after'[seen[q]], seen) {
      assert seen[q] != seen[r];
    }
  }

  lemma CloseKeepsTraversed(s: Store, root: Value, after: Store, seen: map<Ref, Ref>, order: seq<Ref>,
                            path: seq<Ref>, r: Ref)
    requires Traversed(s, root, after, seen, order, path + [r])
    requires r in seen && Copied(s[r], after[seen[r]], seen)
    ensures Traversed(s, root, after, seen, order, path)
  {
    forall q | q in seen && q !in path ensures Copied(s[q], after[seen[q]], seen) {
      if q != r {
        assert q !in path + [r];
      }
    }
  }

  // ---- the whole clone ----

  /** `next` is a reference past every object of the store. On success `after` is the store with
      the copies and `copies` says which object is whose copy. */
  method CloneMachineData(store: Store, root: Value, next: Ref)
    returns (result: Result<Value, Problem>, after: Store, copies: map<Ref, Ref>)
    requires Closed(store) && IsIn(store, root) && forall r :: r in store ==> r < next
    ensures result.Ok? ==>
              && IsomorphicCopy(store, root, after, copies)
              && result.value == Mapped(copies, root)
    ensures result.Ok? <==>
              && !ReachesFunction(store, root) && !FirstTooDeep(store, root)
              && !ReachesTooManyNodes(store, root) && !ReachesTooManyKeys(store, root)
    ensures result.Err? ==> Explains(store, root, result.error)
  {
    var cloner := new Cloner(store, root, next);
    StartOnTrail(store, root);
    assert cloner.seen.Keys == {};
    result := cloner.CloneValue(root, 0, [], []);
    after, copies := cloner.store, cloner.seen;
    if result.Ok? {
      EverythingCopied(store, root, after, copies, cloner.order);
      NoFunctionCopied(store, root, after, copies);
      WithinLimits(store, root, after, copies, cloner.order);
      NotDeepAtAll(store, root);
    }
  }

  lemma NotDeepAtAll(s: Store, root: Value)
    requires !DeepBeyond(s, root, [], [])
    ensures !FirstTooDeep(s, root)
  {
    if p, ks :| IsDeep(s, root, p, ks) {
      assert IsBeyond([], [], p, ks);
    }
  }

  lemma EverythingCopied(s: Store, root: Value, after: Store, seen: map<Ref, Ref>, order: seq<Ref>)
    requires Closed(s) && IsIn(s, root)
    requires Traversed(s, root, after, seen, order, []) && IsMapped(seen, root)
    ensures IsomorphicCopy(s, root, after, seen)
  {
    forall r | Reachable(s, root, r) ensures r in seen {
      var p :| PathFrom(s, root, p) && p[|p| - 1] == r;
      PathStaysInside(s, seen, after, p);
    }
    forall r | r in seen ensures Reachable(s, root, r) {
      var i :| 0 <= i < |order| && order[i] == r;
    }
  }

  lemma NoFunctionCopied(s: Store, root: Value, after: Store, copies: map<Ref, Ref>)
    requires IsomorphicCopy(s, root, after, copies)
    ensures !ReachesFunction(s, root)
  {
    forall r | r in s && Reachable(s, root, r) ensures !Holds(s[r], FunctionValue) {
      assert Copied(s[r], after[copies[r]], copies);
    }
  }

  lemma WithinLimits(s: Store, root: Value, after: Store, copies: map<Ref, Ref>, order: seq<Ref>)
    requires IsomorphicCopy(s, root, after, copies) && AllReachable(s, root, order)
    requires forall r :: r in copies <==> r in order
    requires |order| <= MAX_NODES && TotalKeys(s, order) <= MAX_PROPERTIES
    ensures !ReachesTooManyNodes(s, root) && !ReachesTooManyKeys(s, root)
  {
    forall refs | AllReachable(s, root, refs) && Distinct(refs)
      ensures |refs| <= MAX_NODES && TotalKeys(s, refs) <= MAX_PROPERTIES {
      SublistCounts(s, refs, order);
    }
  }
}
