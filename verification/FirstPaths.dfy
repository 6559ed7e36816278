/** The depth-first order of a graph without running the traversal: which path a depth-first visit
    takes to each object, and what it has seen by then. */
module FirstPaths {
  import opened Common
  import opened ObjectGraphs

  function ChildAt(s: Store, r: Ref, k: int): Value
    requires r in s && 0 <= k < |s[r].properties|
  {
    s[r].properties[k].value
  }

  ghost predicate Avoids(q: seq<Ref>, avoid: seq<Ref>) {
    forall i :: 0 <= i < |q| ==> q[i] !in avoid
  }

  /** The object is reachable from the value without passing through the avoided ones. */
  ghost predicate ReachesAvoiding(s: Store, v: Value, avoid: seq<Ref>, x: Ref) {
    exists q :: PathFrom(s, v, q) && q[|q| - 1] == x && Avoids(q, avoid)
  }

  /** Distinct objects from the root down, with the property taken at each, the last one included. */
  ghost predicate Trail(s: Store, root: Value, p: seq<Ref>, ks: seq<nat>) {
    && |ks| == |p| && Distinct(p)
    && (|p| > 0 ==> root == Object(p[0]))
    && (forall i :: 0 <= i < |p| ==> p[i] in s && ks[i] < |s[p[i]].properties|)
    && (forall i :: 0 <= i < |p| - 1 ==> ChildAt(s, p[i], ks[i]) == Object(p[i + 1]))
  }

  ghost function TrailEnd(s: Store, root: Value, p: seq<Ref>, ks: seq<nat>): Value
    requires Trail(s, root, p, ks)
  {
    if |p| == 0 then root else ChildAt(s, p[|p| - 1], ks[|p| - 1])
  }

  /** An earlier property of the i-th object leads to x past the objects then open. */
  ghost predicate FoundAt(s: Store, p: seq<Ref>, ks: seq<nat>, i: int, x: Ref) {
    && 0 <= i < |p| && i < |ks| && p[i] in s && ks[i] <= |s[p[i]].properties|
    && exists j :: 0 <= j < ks[i] && ReachesAvoiding(s, ChildAt(s, p[i], j), p[..i + 1], x)
  }

  /** No object of the trail is found by an earlier property: this is the path by which a
      depth-first visit first comes to each of them. */
  ghost predicate IsFirst(s: Store, p: seq<Ref>, ks: seq<nat>) {
    forall i, t :: 0 <= i < t < |p| ==> !FoundAt(s, p, ks, i, p[t])
  }

  /** What has been seen when the visit stands at the end of the trail. */
  ghost predicate SeenIs(s: Store, p: seq<Ref>, ks: seq<nat>, seen: set<Ref>) {
    forall x :: x in seen <==> x in p || exists i :: FoundAt(s, p, ks, i, x)
  }

  ghost predicate IsDeep(s: Store, root: Value, p: seq<Ref>, ks: seq<nat>) {
    Trail(s, root, p, ks) && |p| == MAX_DEPTH + 1 && IsFirst(s, p, ks) && TrailEnd(s, root, p, ks).Object?
  }

  /** A depth-first visit meets a reference below the deepest level. */
  ghost predicate FirstTooDeep(s: Store, root: Value) {
    exists p, ks :: IsDeep(s, root, p, ks)
  }

  ghost predicate IsBeyond(p: seq<Ref>, ks: seq<nat>, p': seq<Ref>, ks': seq<nat>) {
    |p| <= |p'| && |ks| <= |ks'| && p'[..|p|] == p && ks'[..|ks|] == ks
  }

  /** The same, at or below the end of this trail. */
  ghost predicate DeepBeyond(s: Store, root: Value, p: seq<Ref>, ks: seq<nat>) {
    exists p', ks' :: IsDeep(s, root, p', ks') && IsBeyond(p, ks, p', ks')
  }

  /** Where a visit stands: about to look at v, at the end of a first trail. */
  ghost predicate OnTrail(s: Store, root: Value, p: seq<Ref>, ks: seq<nat>, seen: set<Ref>, v: Value) {
    && Trail(s, root, p, ks) && TrailEnd(s, root, p, ks) == v
    && IsFirst(s, p, ks) && SeenIs(s, p, ks, seen)
  }

  /** Visiting the value has added exactly what it reaches past the open objects. */
  ghost predicate Visited(s: Store, v: Value, open: seq<Ref>, seen0: set<Ref>, seen: set<Ref>) {
    forall x :: x in seen <==> x in seen0 || ReachesAvoiding(s, v, open, x)
  }

  /** The same after the first n properties of an object just opened. */
  ghost predicate VisitedUpTo(s: Store, r: Ref, open: seq<Ref>, n: nat, seen0: set<Ref>, seen: set<Ref>)
    requires r in s && n <= |s[r].properties|
  {
    forall x :: x in seen <==> x in seen0 || x == r || ReachedBefore(s, r, open, n, x)
  }

  ghost predicate ReachedBefore(s: Store, r: Ref, open: seq<Ref>, n: nat, x: Ref)
    requires r in s && n <= |s[r].properties|
  {
    exists j :: 0 <= j < n && ReachesAvoiding(s, ChildAt(s, r, j), open + [r], x)
  }

  /** Every object seen and no longer open has all its children seen. */
  ghost predicate SeenIsClosed(s: Store, open: seq<Ref>, seen: set<Ref>) {
    forall r :: r in seen && r !in open ==> r in s && forall c :: Holds(s[r], Object(c)) ==> c in seen
  }

  // ---- where the depth error comes from ----

  lemma StartOnTrail(s: Store, root: Value)
    ensures OnTrail(s, root, [], [], {}, root)
  {
  }

  lemma DeepHere(s: Store, root: Value, p: seq<Ref>, ks: seq<nat>, seen: set<Ref>, r: Ref)
    requires OnTrail(s, root, p, ks, seen, Object(r)) && |p| == MAX_DEPTH + 1
    ensures FirstTooDeep(s, root)
  {
    assert IsDeep(s, root, p, ks);
  }

  /** Nothing lies below a value that is no reference. */
  lemma LeafIsNotDeep(s: Store, root: Value, p: seq<Ref>, ks: seq<nat>, seen: set<Ref>, v: Value)
    requires OnTrail(s, root, p, ks, seen, v) && !v.Object? && |p| <= MAX_DEPTH + 1
    ensures !DeepBeyond(s, root, p, ks)
  {
    if p', ks' :| IsDeep(s, root, p', ks') && IsBeyond(p, ks, p', ks') {
      NextOnTrail(s, root, p, ks, p', ks');
    }
  }

  /** A longer trail goes on with the object at the end of the shorter one. */
  lemma NextOnTrail(s: Store, root: Value, p: seq<Ref>, ks: seq<nat>, p': seq<Ref>, ks': seq<nat>)
    requires Trail(s, root, p, ks) && Trail(s, root, p', ks') && IsBeyond(p, ks, p', ks')
    ensures |p| < |p'| ==> TrailEnd(s, root, p, ks) == Object(p'[|p|])
    ensures |p| == |p'| ==> p' == p && ks' == ks
  {
    if 0 < |p| < |p'| {
      var i := |p| - 1;
      assert p'[..|p|][i] == p'[i] && ks'[..|ks|][i] == ks'[i];
      assert ChildAt(s, p'[i], ks'[i]) == Object(p'[i + 1]);
    }
  }

  lemma SameFound(s: Store, p: seq<Ref>, ks: seq<nat>, p': seq<Ref>, ks': seq<nat>, i: int, x: Ref)
    requires IsBeyond(p, ks, p', ks') && |p| == |ks| && 0 <= i < |p|
    ensures FoundAt(s, p, ks, i, x) <==> FoundAt(s, p', ks', i, x)
  {
    assert p'[..|p|][i] == p'[i] && ks'[..|ks|][i] == ks'[i];
    assert p'[..i + 1] == p'[..|p|][..i + 1];
  }

  /** A first trail goes on only through what was not seen. */
  lemma BeyondIsUnseen(s: Store, root: Value, p: seq<Ref>, ks: seq<nat>, seen: set<Ref>, p': seq<Ref>, ks': seq<nat>)
    requires |ks| == |p| && SeenIs(s, p, ks, seen)
    requires Trail(s, root, p', ks') && IsFirst(s, p', ks') && IsBeyond(p, ks, p', ks') && |p| < |p'|
    ensures p'[|p|] !in seen
  {
    var x := p'[|p|];
    forall i | 0 <= i < |p| ensures p[i] != x {
      assert p'[..|p|][i] == p'[i];
    }
    forall i | 0 <= i < |p| ensures !FoundAt(s, p, ks, i, x) {
      SameFound(s, p, ks, p', ks', i, x);
    }
  }

  /** No first trail goes through an object that was seen before. */
  lemma SeenIsNotDeep(s: Store, root: Value, p: seq<Ref>, ks: seq<nat>, seen: set<Ref>, r: Ref)
    requires OnTrail(s, root, p, ks, seen, Object(r)) && |p| <= MAX_DEPTH && r in seen
    ensures !DeepBeyond(s, root, p, ks)
  {
    if p', ks' :| IsDeep(s, root, p', ks') && IsBeyond(p, ks, p', ks') {
      NextOnTrail(s, root, p, ks, p', ks');
      BeyondIsUnseen(s, root, p, ks, seen, p', ks');
    }
  }

  /** Below a reference to an object, a first trail goes on through one of its properties. */
  lemma DeepGoesOn(s: Store, root: Value, p: seq<Ref>, ks: seq<nat>, seen: set<Ref>, r: Ref) returns (i: nat)
    requires OnTrail(s, root, p, ks, seen, Object(r)) && |p| <= MAX_DEPTH && r in s && DeepBeyond(s, root, p, ks)
    ensures i < |s[r].properties| && DeepBeyond(s, root, p + [r], ks + [i])
  {
    var p', ks' :| IsDeep(s, root, p', ks') && IsBeyond(p, ks, p', ks');
    NextOnTrail(s, root, p, ks, p', ks');
    var t := |p|;
    i := ks'[t];
    assert p'[..t + 1] == p + [r] && ks'[..t + 1] == ks + [i];
    assert IsBeyond(p + [r], ks + [i], p', ks');
  }

  lemma DeepIsBelowSome(s: Store, root: Value, p: seq<Ref>, ks: seq<nat>, seen: set<Ref>, r: Ref)
    requires OnTrail(s, root, p, ks, seen, Object(r)) && |p| <= MAX_DEPTH && r in s
    requires forall i: nat :: i < |s[r].properties| ==> !DeepBeyond(s, root, p + [r], ks + [i])
    ensures !DeepBeyond(s, root, p, ks)
  {
    if DeepBeyond(s, root, p, ks) {
      var i := DeepGoesOn(s, root, p, ks, seen, r);
    }
  }

  /** Such a first trail is in particular a path of distinct objects, one per level. */
  lemma FirstIsSimplePath(s: Store, root: Value)
    requires FirstTooDeep(s, root)
    ensures ReachesTooDeep(s, root)
  {
    var p, ks :| IsDeep(s, root, p, ks);
    forall i | 0 <= i < |p| - 1 ensures Holds(s[p[i]], Object(p[i + 1])) {
      assert s[p[i]].properties[ks[i]].value == Object(p[i + 1]);
    }
    assert Holds(s[p[MAX_DEPTH]], TrailEnd(s, root, p, ks));
  }

  // ---- opening an object ----

  lemma TrailGrows(s: Store, root: Value, p: seq<Ref>, ks: seq<nat>, r: Ref, i: nat)
    requires Trail(s, root, p, ks) && TrailEnd(s, root, p, ks) == Object(r) && r !in p
    requires r in s && i < |s[r].properties|
    ensures Trail(s, root, p + [r], ks + [i]) && TrailEnd(s, root, p + [r], ks + [i]) == ChildAt(s, r, i)
  {
    var p', ks' := p + [r], ks + [i];
    forall j | 0 <= j < |p'| - 1 ensures ChildAt(s, p'[j], ks'[j]) == Object(p'[j + 1]) {
      assert p'[j] == p[j] && ks'[j] == ks[j];
    }
  }

  lemma FirstGrows(s: Store, p: seq<Ref>, ks: seq<nat>, seen: set<Ref>, r: Ref, i: nat)
    requires |ks| == |p| && IsFirst(s, p, ks) && SeenIs(s, p, ks, seen) && r !in seen
    ensures IsFirst(s, p + [r], ks + [i])
  {
    var p', ks' := p + [r], ks + [i];
    forall j, t | 0 <= j < t < |p'| ensures !FoundAt(s, p', ks', j, p'[t]) {
      assert p'[..|p|] == p && ks'[..|ks|] == ks;
      SameFound(s, p, ks, p', ks', j, p'[t]);
      if t < |p| {
        assert p'[t] == p[t];
      }
    }
  }

  lemma SeenGrows(s: Store, p: seq<Ref>, ks: seq<nat>, seen0: set<Ref>, r: Ref, i: nat, seen: set<Ref>)
    requires |ks| == |p| && SeenIs(s, p, ks, seen0) && r in s && i <= |s[r].properties|
    requires VisitedUpTo(s, r, p, i, seen0, seen)
    ensures SeenIs(s, p + [r], ks + [i], seen)
  {
    var p', ks' := p + [r], ks + [i];
    assert p'[..|p|] == p && ks'[..|ks|] == ks;
    assert p'[..|p| + 1] == p + [r];
    forall x ensures x in seen <==> x in p' || exists j :: FoundAt(s, p', ks', j, x) {
      assert FoundAt(s, p', ks', |p|, x) <==> ReachedBefore(s, r, p, i, x);
      if j :| FoundAt(s, p, ks, j, x) {
        SameFound(s, p, ks, p', ks', j, x);
      }
      if j :| FoundAt(s, p', ks', j, x) && j < |p| {
        SameFound(s, p, ks, p', ks', j, x);
      }
    }
  }

  /** Looking at property i of an object just opened, after the properties before it. */
  lemma OpensOnTrail(s: Store, root: Value, p: seq<Ref>, ks: seq<nat>, seen0: set<Ref>, r: Ref, i: nat, seen: set<Ref>)
    requires OnTrail(s, root, p, ks, seen0, Object(r)) && r !in seen0 && r in s && i < |s[r].properties|
    requires VisitedUpTo(s, r, p, i, seen0, seen)
    ensures OnTrail(s, root, p + [r], ks + [i], seen, ChildAt(s, r, i))
  {
    hide IsFirst, SeenIs, VisitedUpTo, Trail;
    assert r !in p by { OpenIsSeen(s, p, ks, seen0); }
    TrailGrows(s, root, p, ks, r, i);
    TrailLengths(s, root, p, ks);
    FirstGrows(s, p, ks, seen0, r, i);
    SeenGrows(s, p, ks, seen0, r, i, seen);
  }

  lemma OpenIsSeen(s: Store, p: seq<Ref>, ks: seq<nat>, seen: set<Ref>)
    requires SeenIs(s, p, ks, seen)
    ensures forall x :: x in p ==> x in seen
  {
  }

  lemma TrailLengths(s: Store, root: Value, p: seq<Ref>, ks: seq<nat>)
    requires Trail(s, root, p, ks)
    ensures |ks| == |p|
  {
  }

  // ---- what a visit adds ----

  lemma LeafAddsNothing(s: Store, v: Value, open: seq<Ref>, seen: set<Ref>)
    requires !v.Object?
    ensures Visited(s, v, open, seen, seen)
  {
  }

  /** A path that avoids the open objects stays inside what is seen. */
  lemma {:induction false} PathStaysSeen(s: Store, open: seq<Ref>, seen: set<Ref>, q: seq<Ref>)
    requires SeenIsClosed(s, open, seen) && IsPath(s, q) && q[0] in seen && Avoids(q, open)
    ensures q[|q| - 1] in seen
    decreases |q|
  {
    if |q| > 1 {
      var init := q[..|q| - 1];
      PathStaysSeen(s, open, seen, init);
      assert Holds(s[init[|init| - 1]], Object(q[|q| - 1]));
    }
  }

  lemma SeenAddsNothing(s: Store, open: seq<Ref>, seen: set<Ref>, r: Ref)
    requires SeenIsClosed(s, open, seen) && r in seen
    ensures Visited(s, Object(r), open, seen, seen)
  {
    forall x | ReachesAvoiding(s, Object(r), open, x) ensures x in seen {
      var q :| PathFrom(s, Object(r), q) && q[|q| - 1] == x && Avoids(q, open);
      PathStaysSeen(s, open, seen, q);
    }
  }

  lemma SuffixIsPath(s: Store, q: seq<Ref>, k: nat)
    requires IsPath(s, q) && k < |q|
    ensures IsPath(s, q[k..]) && q[k..][|q[k..]| - 1] == q[|q| - 1]
  {
    var rest := q[k..];
    forall i | 0 <= i < |rest| - 1 ensures Holds(s[rest[i]], Object(rest[i + 1])) {
      assert rest[i] == q[k + i] && rest[i + 1] == q[k + i + 1];
    }
  }

  /** From an object one reaches itself, and what its properties reach without coming back to it. */
  lemma {:induction false} PathLeaves(s: Store, open: seq<Ref>, r: Ref, q: seq<Ref>)
    requires PathFrom(s, Object(r), q) && Avoids(q, open)
    ensures q[|q| - 1] == r || ReachedBefore(s, r, open, |s[r].properties|, q[|q| - 1])
    decreases |q|
  {
    if |q| > 1 {
      if k :| 1 <= k < |q| && q[k] == r {
        SuffixIsPath(s, q, k);
        PathLeaves(s, open, r, q[k..]);
      } else {
        var rest := q[1..];
        SuffixIsPath(s, q, 1);
        assert Holds(s[q[0]], Object(q[1]));
        var j :| 0 <= j < |s[r].properties| && s[r].properties[j].value == Object(q[1]);
        assert forall i :: 0 <= i < |rest| ==> rest[i] == q[1 + i];
        assert PathFrom(s, ChildAt(s, r, j), rest) && Avoids(rest, open + [r]);
      }
    }
  }

  lemma PathEnters(s: Store, open: seq<Ref>, r: Ref, j: nat, x: Ref)
    requires r in s && r !in open && j < |s[r].properties| && ReachesAvoiding(s, ChildAt(s, r, j), open + [r], x)
    ensures ReachesAvoiding(s, Object(r), open, x)
  {
    var q :| PathFrom(s, ChildAt(s, r, j), q) && q[|q| - 1] == x && Avoids(q, open + [r]);
    var p := [r] + q;
    assert Holds(s[r], Object(q[0]));
    forall i | 0 <= i < |p| - 1 ensures Holds(s[p[i]], Object(p[i + 1])) {
      if i > 0 {
        assert p[i] == q[i - 1] && p[i + 1] == q[i];
      }
    }
    forall i | 0 <= i < |p| ensures p[i] !in open && p[i] in s {
      if i > 0 {
        assert p[i] == q[i - 1];
        assert q[i - 1] !in open + [r];
      }
    }
    assert PathFrom(s, Object(r), p) && p[|p| - 1] == x;
  }

  /** All properties visited is the object visited. */
  lemma AllPropertiesIsVisited(s: Store, open: seq<Ref>, r: Ref, seen0: set<Ref>, seen: set<Ref>)
    requires r in s && r !in open && VisitedUpTo(s, r, open, |s[r].properties|, seen0, seen)
    ensures Visited(s, Object(r), open, seen0, seen)
  {
    forall x ensures x in seen <==> x in seen0 || ReachesAvoiding(s, Object(r), open, x) {
      if ReachesAvoiding(s, Object(r), open, x) {
        var q :| PathFrom(s, Object(r), q) && q[|q| - 1] == x && Avoids(q, open);
        PathLeaves(s, open, r, q);
      }
      if ReachedBefore(s, r, open, |s[r].properties|, x) {
        var j :| 0 <= j < |s[r].properties| && ReachesAvoiding(s, ChildAt(s, r, j), open + [r], x);
        PathEnters(s, open, r, j, x);
      }
      if x == r {
        assert PathFrom(s, Object(r), [r]) && Avoids([r], open);
      }
    }
  }

  lemma NothingVisitedYet(s: Store, r: Ref, open: seq<Ref>, seen0: set<Ref>)
    requires r in s
    ensures VisitedUpTo(s, r, open, 0, seen0, seen0 + {r})
  {
  }

  /** One property more. */
  lemma NextVisited(s: Store, r: Ref, open: seq<Ref>, i: nat, seen0: set<Ref>, seen1: set<Ref>, seen2: set<Ref>)
    requires r in s && i < |s[r].properties| && VisitedUpTo(s, r, open, i, seen0, seen1)
    requires Visited(s, ChildAt(s, r, i), open + [r], seen1, seen2)
    ensures VisitedUpTo(s, r, open, i + 1, seen0, seen2)
  {
    forall x ensures ReachedBefore(s, r, open, i + 1, x) <==>
        ReachedBefore(s, r, open, i, x) || ReachesAvoiding(s, ChildAt(s, r, i), open + [r], x) {
    }
  }
}
