/** Plain data as an explicit store: objects with own properties, sharing and cycles by
    reference, and what it means for one graph to be a copy of another. */
module ObjectGraphs {

  type Ref = nat

  /** A property value: a primitive, a function, or a reference to an array or plain object. */
  datatype Value = Primitive(text: string) | FunctionValue | Object(ref: Ref)

  datatype Property = Property(name: string, value: Value)

  /** `properties` are the own properties other than an array's `length`. */
  datatype Obj = Obj(isArray: bool, length: nat, properties: seq<Property>)

  type Store = map<Ref, Obj>

  const MAX_DEPTH := 256
  const MAX_NODES := 10_000
  const MAX_PROPERTIES := 100_000

  /** No reference dangles. */
  ghost predicate Closed(s: Store) {
    forall r :: r in s ==> forall i :: 0 <= i < |s[r].properties| ==> IsIn(s, s[r].properties[i].value)
  }

  predicate IsIn(s: Store, v: Value) { v.Object? ==> v.ref in s }

  /** The number of own keys, an array's `length` included. */
  function OwnKeys(o: Obj): nat {
    |o.properties| + if o.isArray then 1 else 0
  }

  function TotalKeys(s: Store, refs: seq<Ref>): nat
    requires forall i :: 0 <= i < |refs| ==> refs[i] in s
  {
    if |refs| == 0 then 0 else TotalKeys(s, refs[..|refs| - 1]) + OwnKeys(s[refs[|refs| - 1]])
  }

  // ---- reachability ----

  ghost predicate Holds(o: Obj, v: Value) {
    exists i :: 0 <= i < |o.properties| && o.properties[i].value == v
  }

  ghost predicate IsPath(s: Store, p: seq<Ref>) {
    && |p| > 0
    && (forall i :: 0 <= i < |p| ==> p[i] in s)
    && (forall i :: 0 <= i < |p| - 1 ==> Holds(s[p[i]], Object(p[i + 1])))
  }

  ghost predicate PathFrom(s: Store, root: Value, p: seq<Ref>) {
    IsPath(s, p) && root == Object(p[0])
  }

  ghost predicate Reachable(s: Store, root: Value, r: Ref) {
    exists p :: PathFrom(s, root, p) && p[|p| - 1] == r
  }

  ghost predicate AllReachable(s: Store, root: Value, refs: seq<Ref>) {
    forall i :: 0 <= i < |refs| ==> refs[i] in s && Reachable(s, root, refs[i])
  }

  ghost predicate Distinct(refs: seq<Ref>) {
    forall i, j :: 0 <= i < j < |refs| ==> refs[i] != refs[j]
  }

  lemma RootIsReachable(s: Store, r: Ref)
    requires r in s
    ensures Reachable(s, Object(r), r)
  {
    assert PathFrom(s, Object(r), [r]);
  }

  lemma PathExtends(s: Store, root: Value, p: seq<Ref>, r: Ref)
    requires PathFrom(s, root, p) && r in s && Holds(s[p[|p| - 1]], Object(r))
    ensures PathFrom(s, root, p + [r])
  {
    var q := p + [r];
    forall i | 0 <= i < |q| - 1 ensures Holds(s[q[i]], Object(q[i + 1])) {
      assert q[i] == p[i];
    }
  }

  // ---- copies ----

  /** The value a copy stores where the original stores `v`. */
  function Mapped(copies: map<Ref, Ref>, v: Value): Value {
    if v.Object? && v.ref in copies then Object(copies[v.ref]) else v
  }

  /** Not a function, and if a reference, one that was copied. */
  predicate IsMapped(copies: map<Ref, Ref>, v: Value) {
    !v.FunctionValue? && (v.Object? ==> v.ref in copies)
  }

  /** The first n properties of the original, in order, with references redirected to copies. */
  ghost predicate CopiedUpTo(o: Obj, copy: Obj, copies: map<Ref, Ref>, n: nat) {
    && n <= |o.properties|
    && copy.isArray == o.isArray && copy.length == o.length && |copy.properties| == n
    && forall i :: 0 <= i < n ==>
         && IsMapped(copies, o.properties[i].value)
         && copy.properties[i] == Property(o.properties[i].name, Mapped(copies, o.properties[i].value))
  }

  ghost predicate Copied(o: Obj, copy: Obj, copies: map<Ref, Ref>) {
    CopiedUpTo(o, copy, copies, |o.properties|)
  }

  ghost predicate Injective(copies: map<Ref, Ref>) {
    forall r, q :: r in copies && q in copies && copies[r] == copies[q] ==> r == q
  }

  /** Copies are fresh objects, distinct for distinct originals; the originals are untouched. */
  ghost predicate FreshCopies(s: Store, after: Store, copies: map<Ref, Ref>) {
    && copies.Keys <= s.Keys
    && Injective(copies)
    && (forall r :: r in copies ==> copies[r] in after && copies[r] !in s)
    && (forall r :: r in s ==> r in after && after[r] == s[r])
    && (forall r :: r in after ==> r in s || exists q :: q in copies && copies[q] == r)
  }

  /** A fresh isomorphic copy of everything reachable from the root, and of nothing else. */
  ghost predicate IsomorphicCopy(s: Store, root: Value, after: Store, copies: map<Ref, Ref>) {
    && FreshCopies(s, after, copies) && IsMapped(copies, root)
    && (forall r :: r in copies <==> Reachable(s, root, r))
    && (forall r :: r in copies ==> Copied(s[r], after[copies[r]], copies))
  }

  // ---- what a copy preserves ----

  /** The index of the first property of that name, or the number of properties. */
  function Find(properties: seq<Property>, name: string): (i: nat)
    ensures i <= |properties|
    ensures i < |properties| ==> properties[i].name == name
  {
    if |properties| == 0 then 0 else if properties[0].name == name then 0 else 1 + Find(properties[1..], name)
  }

  /** Where a chain of property reads leads, if every step finds its property. */
  function Follow(s: Store, v: Value, names: seq<string>): (w: Value)
    decreases |names|
  {
    if |names| == 0 then v else
    var o := Follow(s, v, names[..|names| - 1]);
    if o.Object? && o.ref in s then
      var i := Find(s[o.ref].properties, names[|names| - 1]);
      if i < |s[o.ref].properties| then s[o.ref].properties[i].value else Primitive("undefined")
    else Primitive("undefined")
  }

  lemma {:induction false} FindSameNames(a: seq<Property>, b: seq<Property>, name: string)
    requires |a| == |b| && forall i :: 0 <= i < |a| ==> a[i].name == b[i].name
    ensures Find(a, name) == Find(b, name)
  {
    if |a| > 0 {
      FindSameNames(a[1..], b[1..], name);
    }
  }

  lemma {:induction false} FollowStaysReachable(s: Store, root: Value, names: seq<string>)
    requires Closed(s) && IsIn(s, root)
    ensures Follow(s, root, names).Object? ==>
              Follow(s, root, names).ref in s && Reachable(s, root, Follow(s, root, names).ref)
    decreases |names|
  {
    var w := Follow(s, root, names);
    if w.Object? {
      if |names| == 0 {
        RootIsReachable(s, w.ref);
      } else {
        var o := Follow(s, root, names[..|names| - 1]);
        FollowStaysReachable(s, root, names[..|names| - 1]);
        var p :| PathFrom(s, root, p) && p[|p| - 1] == o.ref;
        assert IsIn(s, w);
        assert Holds(s[o.ref], Object(w.ref));
        PathExtends(s, root, p, w.ref);
        assert (p + [w.ref])[|p|] == w.ref;
      }
    }
  }

  /** Every chain of reads through the copy ends at the copy of where it ends in the original. */
  lemma {:induction false} CopyReadsAlike(s: Store, root: Value, after: Store, copies: map<Ref, Ref>,
                                          names: seq<string>)
    requires Closed(s) && IsIn(s, root) && IsomorphicCopy(s, root, after, copies)
    ensures Follow(after, Mapped(copies, root), names) == Mapped(copies, Follow(s, root, names))
    ensures IsMapped(copies, Follow(s, root, names))
    decreases |names|
  {
    FollowStaysReachable(s, root, names);
    if |names| > 0 {
      var init, name := names[..|names| - 1], names[|names| - 1];
      CopyReadsAlike(s, root, after, copies, init);
      var o := Follow(s, root, init);
      if o.Object? {
        var original, copy := s[o.ref], after[copies[o.ref]];
        assert Copied(original, copy, copies);
        FindSameNames(original.properties, copy.properties, name);
      }
    }
  }

  /** Sharing and cycles survive: two chains of reads meet in the copy exactly when they meet
      in the original. */
  lemma CopySharesAlike(s: Store, root: Value, after: Store, copies: map<Ref, Ref>,
                        names1: seq<string>, names2: seq<string>)
    requires Closed(s) && IsIn(s, root) && IsomorphicCopy(s, root, after, copies)
    ensures Follow(after, Mapped(copies, root), names1) == Follow(after, Mapped(copies, root), names2)
       <==> Follow(s, root, names1) == Follow(s, root, names2)
  {
    CopyReadsAlike(s, root, after, copies, names1);
    CopyReadsAlike(s, root, after, copies, names2);
  }

  // ---- what makes cloning fail ----

  ghost predicate ReachesFunction(s: Store, root: Value) {
    root.FunctionValue? || exists r :: r in s && Reachable(s, root, r) && Holds(s[r], FunctionValue)
  }

  /** A path of distinct objects, one per level, leading to a reference below the deepest level. */
  ghost predicate ReachesTooDeep(s: Store, root: Value) {
    exists p, r :: PathFrom(s, root, p) && Distinct(p) && |p| == MAX_DEPTH + 1 && Holds(s[p[MAX_DEPTH]], Object(r))
  }

  ghost predicate ReachesTooManyNodes(s: Store, root: Value) {
    exists refs :: AllReachable(s, root, refs) && Distinct(refs) && |refs| > MAX_NODES
  }

  ghost predicate ReachesTooManyKeys(s: Store, root: Value) {
    exists refs :: AllReachable(s, root, refs) && Distinct(refs) && TotalKeys(s, refs) > MAX_PROPERTIES
  }

  // ---- counting what is reachable ----

  lemma {:induction false} TotalKeysSplit(s: Store, a: seq<Ref>, r: Ref, b: seq<Ref>)
    requires forall i :: 0 <= i < |a| ==> a[i] in s
    requires forall i :: 0 <= i < |b| ==> b[i] in s
    requires r in s
    ensures TotalKeys(s, a + [r] + b) == TotalKeys(s, a + b) + OwnKeys(s[r])
  {
    if |b| == 0 {
      assert a + [r] + b == a + [r] && a + b == a && (a + [r])[..|a|] == a;
    } else {
      var n := |b| - 1;
      assert (a + [r] + b)[..|a| + 1 + n] == a + [r] + b[..n];
      assert (a + b)[..|a| + n] == a + b[..n];
      TotalKeysSplit(s, a, r, b[..n]);
    }
  }

  lemma OtherMember(order: seq<Ref>, j: nat, x: Ref)
    requires j < |order| && x in order && x != order[j]
    ensures x in order[..j] + order[j + 1..]
  {
    var k :| 0 <= k < |order| && order[k] == x;
    assert (order[..j] + order[j + 1..])[if k < j then k else k - 1] == x;
  }

  /** Distinct members of a list are no more, and have no more keys, than the whole list. */
  lemma {:induction false} SublistCounts(s: Store, refs: seq<Ref>, order: seq<Ref>)
    requires Distinct(refs) && forall i :: 0 <= i < |refs| ==> refs[i] in order
    requires forall i :: 0 <= i < |order| ==> order[i] in s
    ensures |refs| <= |order|
    ensures forall i :: 0 <= i < |refs| ==> refs[i] in s
    ensures TotalKeys(s, refs) <= TotalKeys(s, order)
  {
    if |refs| > 0 {
      var n := |refs| - 1;
      assert refs[n] in order;
      var j :| 0 <= j < |order| && order[j] == refs[n];
      var a, b := order[..j], order[j + 1..];
      assert order == a + [order[j]] + b;
      forall i | 0 <= i < n ensures refs[..n][i] in a + b {
        OtherMember(order, j, refs[i]);
      }
      forall i | 0 <= i < |b| ensures b[i] in s {
        assert b[i] == order[j + 1 + i];
      }
      SublistCounts(s, refs[..n], a + b);
      TotalKeysSplit(s, a, order[j], b);
    }
  }

  /** A set of visited objects closed under references contains everything reachable. */
  lemma {:induction false} PathStaysInside(s: Store, copies: map<Ref, Ref>, after: Store, p: seq<Ref>)
    requires IsPath(s, p) && p[0] in copies
    requires forall r :: r in copies ==> r in s && copies[r] in after && Copied(s[r], after[copies[r]], copies)
    ensures p[|p| - 1] in copies
    decreases |p|
  {
    if |p| > 1 {
      var q := p[..|p| - 1];
      PathStaysInside(s, copies, after, q);
      var last := q[|q| - 1];
      assert Holds(s[p[|p| - 2]], Object(p[|p| - 1]));
      assert Copied(s[last], after[copies[last]], copies);
    }
  }
}
