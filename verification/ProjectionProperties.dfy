/** What one accepted batch guarantees, for arbitrary checkpoints and arbitrary items:
    nothing unseen is dropped, and a batch may be split anywhere. */
module ProjectionProperties {
  import opened Common
  import opened Projections

  lemma AdvancePrefix(c: Checkpoints, items: seq<Item>, n: nat)
    requires n < |items|
    ensures AdvanceAll(c, items[..n + 1]) == AdvanceOne(AdvanceAll(c, items[..n]), items[n])
  {
    var p := items[..n + 1];
    assert p[..|p| - 1] == items[..n];
  }

  /** Once the pass has met a gap it never recovers. */
  lemma {:induction false} PrefixAdvances(c: Checkpoints, items: seq<Item>, n: nat)
    requires n <= |items|
    requires AdvanceAll(c, items).Advanced?
    ensures AdvanceAll(c, items[..n]).Advanced?
    decreases |items|
  {
    if n == |items| {
      assert items[..n] == items;
    } else {
      var init := items[..|items| - 1];
      PrefixAdvances(c, init, n);
      assert init[..n] == items[..n];
    }
  }

  /** State of the pass just before item n. */
  function Before(c: Checkpoints, items: seq<Item>, n: nat): Checkpoints
    requires n <= |items|
  {
    var r := AdvanceAll(c, items[..n]);
    if r.Advanced? then r.checkpoints else c
  }

  ghost predicate AppliedAt(c: Checkpoints, items: seq<Item>, n: nat) {
    n < |items| && Extends(Before(c, items, n), items[n])
  }

  ghost predicate SkippedAt(c: Checkpoints, items: seq<Item>, n: nat) {
    n < |items| && Skips(Before(c, items, n), items[n])
  }

  lemma EachIsAppliedOrSkipped(c: Checkpoints, items: seq<Item>, n: nat)
    requires n < |items| && AdvanceAll(c, items).Advanced?
    ensures AppliedAt(c, items, n) || SkippedAt(c, items, n)
    ensures AppliedAt(c, items, n) ==> Before(c, items, n + 1) == Apply(Before(c, items, n), items[n])
    ensures SkippedAt(c, items, n) ==> Before(c, items, n + 1) == Before(c, items, n)
  {
    PrefixAdvances(c, items, n);
    PrefixAdvances(c, items, n + 1);
    AdvancePrefix(c, items, n);
  }

  /** Applied plus skipped is the batch length. */
  lemma {:induction false} EveryItemCounted(c: Checkpoints, items: seq<Item>)
    requires AdvanceAll(c, items).Advanced?
    ensures |AdvanceAll(c, items).applied| + AdvanceAll(c, items).skipped == |items|
  {
    if |items| > 0 {
      PrefixAdvances(c, items, |items| - 1);
      EveryItemCounted(c, items[..|items| - 1]);
    }
  }

  /** A watermark never moves back. */
  predicate AtLeast(newer: Checkpoints, older: Checkpoints, a: Address) {
    a in older ==> a in newer && !IsPositionAfter(older[a].position, newer[a].position)
  }

  lemma {:induction false} WatermarksGrow(c: Checkpoints, items: seq<Item>, n: nat, a: Address)
    requires n <= |items| && AdvanceAll(c, items).Advanced?
    ensures AtLeast(Before(c, items, n), c, a)
  {
    if n > 0 {
      WatermarksGrow(c, items, n - 1, a);
      EachIsAppliedOrSkipped(c, items, n - 1);
    }
  }

  /** A moved watermark names an item this batch applied. */
  lemma {:induction false} WatermarkOrigin(c: Checkpoints, items: seq<Item>, n: nat, a: Address)
    requires n <= |items| && AdvanceAll(c, items).Advanced?
    requires a in Before(c, items, n)
    ensures (a in c && Before(c, items, n)[a] == c[a])
            || exists i :: 0 <= i < n && AppliedAt(c, items, i) && items[i].address == a
                           && Before(c, items, n)[a] == Checkpoint(items[i].position, items[i].event.eventId)
  {
    if n > 0 {
      EachIsAppliedOrSkipped(c, items, n - 1);
      if !(AppliedAt(c, items, n - 1) && items[n - 1].address == a) {
        WatermarkOrigin(c, items, n - 1, a);
      }
    }
  }

  lemma AppliedWasUnseen(c: Checkpoints, items: seq<Item>, n: nat)
    requires n < |items| && AdvanceAll(c, items).Advanced? && AppliedAt(c, items, n)
    ensures !Skips(c, items[n])
  {
    WatermarksGrow(c, items, n, items[n].address);
  }

  /** The first item at an unseen position is applied, never skipped. */
  lemma FirstUnseenIsApplied(c: Checkpoints, items: seq<Item>, j: nat)
    requires j < |items| && Accepts(c, items)
    requires FirstOfItsKey(items, j) && !Skips(c, items[j])
    ensures AppliedAt(c, items, j)
  {
    EachIsAppliedOrSkipped(c, items, j);
    if SkippedAt(c, items, j) {
      var a := items[j].address;
      WatermarkOrigin(c, items, j, a);
      var i :| 0 <= i < j && AppliedAt(c, items, i) && items[i].address == a
               && Before(c, items, j)[a] == Checkpoint(items[i].position, items[i].event.eventId);
      AppliedWasUnseen(c, items, i);
    }
  }

  lemma FirstOccurrence(items: seq<Item>, j: nat) returns (k: nat)
    requires j < |items|
    ensures k <= j && FirstOfItsKey(items, k) && SameKey(items[k], items[j])
    decreases j
  {
    if m :| 0 <= m < j && SameKey(items[m], items[j]) {
      k := FirstOccurrence(items, m);
    } else {
      k := j;
    }
  }

  /** A skipped item is either covered by the checkpoint stored at batch start, or the exact
      repeat of an item this batch applied earlier: no unseen position is ever dropped. */
  lemma SkippedIsCoveredOrRepeated(c: Checkpoints, items: seq<Item>, j: nat)
    requires Accepts(c, items) && SkippedAt(c, items, j)
    ensures Skips(c, items[j])
            || exists k :: 0 <= k < j && AppliedAt(c, items, k) && SameReceipt(items[k], items[j])
  {
    if !Skips(c, items[j]) {
      var k := FirstOccurrence(items, j);
      FirstUnseenIsApplied(c, items, k);
      if k == j {
        assert false;
      }
      assert SameReceipt(items[k], items[j]);
    }
  }

  // ---- splitting ----

  lemma {:induction false} AdvanceConcat(c: Checkpoints, a: seq<Item>, b: seq<Item>)
    requires AdvanceAll(c, a).Advanced?
    ensures var first := AdvanceAll(c, a);
            var rest := AdvanceAll(first.checkpoints, b);
            AdvanceAll(c, a + b) ==
            if rest.Gapped? then Gapped
            else Advanced(rest.checkpoints, first.applied + rest.applied, first.skipped + rest.skipped)
  {
    if |b| == 0 {
      assert a + b == a;
      assert AdvanceAll(c, a).applied + [] == AdvanceAll(c, a).applied;
    } else {
      var init, last := b[..|b| - 1], b[|b| - 1];
      AdvanceConcat(c, a, init);
      assert (a + b)[..|a + b| - 1] == a + init;
      var first := AdvanceAll(c, a);
      var rest := AdvanceAll(first.checkpoints, init);
      if rest.Advanced? && Extends(rest.checkpoints, last) {
        assert first.applied + (rest.applied + [last]) == (first.applied + rest.applied) + [last];
      }
    }
  }

  lemma PrefixAccepted(c: Checkpoints, a: seq<Item>, b: seq<Item>)
    requires Accepts(c, a + b)
    ensures Accepts(c, a)
  {
    var whole := a + b;
    assert forall i :: 0 <= i < |a| ==> whole[i] == a[i];
    PrefixAdvances(c, whole, |a|);
    assert whole[..|a|] == a;
    forall i, j | 0 <= i < j < |a| && SameKey(a[i], a[j]) ensures SameReceipt(a[i], a[j]) {
      assert SameKey(whole[i], whole[j]);
    }
    forall i, j | 0 <= i < j < |a| && FirstOfItsKey(a, j) && !Skips(c, a[i]) && !Skips(c, a[j])
                  && a[i].address == a[j].address
      ensures !IsPositionAfter(a[i].position, a[j].position)
    {
      assert FirstOfItsKey(whole, j);
    }
  }

  lemma StepCovers(c: Checkpoints, items: seq<Item>, j: nat)
    requires AdvanceAll(c, items).Advanced? && j < |items|
    ensures Skips(Before(c, items, j + 1), items[j])
  {
    EachIsAppliedOrSkipped(c, items, j);
    hide Before;
  }

  lemma StepKeepsCovered(c: Checkpoints, items: seq<Item>, i: Item, n: nat)
    requires AdvanceAll(c, items).Advanced? && n < |items|
    requires Skips(Before(c, items, n), i)
    ensures Skips(Before(c, items, n + 1), i)
  {
    EachIsAppliedOrSkipped(c, items, n);
    hide Before;
  }

  /** After an accepted batch every one of its items is at or behind the watermark. */
  lemma {:induction false} AcceptedIsCovered(c: Checkpoints, items: seq<Item>, j: nat, n: nat)
    requires AdvanceAll(c, items).Advanced? && j < n <= |items|
    ensures Skips(Before(c, items, n), items[j])
  {
    hide Before, Skips;
    if n == j + 1 {
      StepCovers(c, items, j);
    } else {
      AcceptedIsCovered(c, items, j, n - 1);
      StepKeepsCovered(c, items, items[j], n - 1);
    }
  }

  lemma SuffixReceipts(c: Checkpoints, a: seq<Item>, b: seq<Item>, i: nat)
    requires Accepts(c, a + b) && i < |b|
    requires AdvanceAll(c, a).Advanced?
    ensures IsReadable(AdvanceAll(c, a).checkpoints, b[i])
    ensures WatermarkProblem(AdvanceAll(c, a).checkpoints, b[i]).None?
  {
    var whole := a + b;
    var c1 := AdvanceAll(c, a).checkpoints;
    assert whole[..|a|] == a;
    assert whole[|a| + i] == b[i];
    var x := b[i].address;
    if x in c1 {
      WatermarkOrigin(c, whole, |a|, x);
      if !(x in c && c1[x] == c[x]) {
        var k :| 0 <= k < |a| && AppliedAt(c, whole, k) && whole[k].address == x
                 && c1[x] == Checkpoint(whole[k].position, whole[k].event.eventId);
        assert IsProjectable(whole[k]);
        assert SameKey(whole[k], b[i]) ==> SameReceipt(whole[k], whole[|a| + i]);
      }
    }
  }

  lemma SuffixInOrder(c: Checkpoints, a: seq<Item>, b: seq<Item>)
    requires Accepts(c, a + b)
    requires AdvanceAll(c, a).Advanced?
    ensures InOrder(AdvanceAll(c, a).checkpoints, b)
  {
    var whole := a + b;
    var c1 := AdvanceAll(c, a).checkpoints;
    assert whole[..|a|] == a;
    forall i, j | 0 <= i < j < |b| && FirstOfItsKey(b, j) && !Skips(c1, b[i]) && !Skips(c1, b[j])
                  && b[i].address == b[j].address
      ensures !IsPositionAfter(b[i].position, b[j].position)
    {
      WatermarksGrow(c, whole, |a|, b[j].address);
      forall k | 0 <= k < |a| + j ensures !SameKey(whole[k], whole[|a| + j]) {
        if k < |a| {
          AcceptedIsCovered(c, whole, k, |a|);
        } else {
          assert whole[k] == b[k - |a|];
        }
      }
      assert FirstOfItsKey(whole, |a| + j);
      assert whole[|a| + i] == b[i] && whole[|a| + j] == b[j];
    }
  }

  /** A batch that succeeds may be split at any point: both halves succeed, and together they
      apply the same items in the same order and leave the same checkpoints. */
  lemma BatchSplits(c: Checkpoints, a: seq<Item>, b: seq<Item>)
    requires Accepts(c, a + b)
    ensures Accepts(c, a)
    ensures Accepts(AdvanceAll(c, a).checkpoints, b)
    ensures var first := AdvanceAll(c, a);
            var rest := AdvanceAll(first.checkpoints, b);
            AdvanceAll(c, a + b)
            == Advanced(rest.checkpoints, first.applied + rest.applied, first.skipped + rest.skipped)
  {
    PrefixAccepted(c, a, b);
    AdvanceConcat(c, a, b);
    var c1 := AdvanceAll(c, a).checkpoints;
    var whole := a + b;
    assert forall i :: 0 <= i < |b| ==> b[i] == whole[|a| + i];
    forall i | 0 <= i < |b| ensures IsReadable(c1, b[i]) && WatermarkProblem(c1, b[i]).None? {
      SuffixReceipts(c, a, b, i);
    }
    forall i, j | 0 <= i < j < |b| && SameKey(b[i], b[j]) ensures SameReceipt(b[i], b[j]) {
      assert SameKey(whole[|a| + i], whole[|a| + j]);
    }
    SuffixInOrder(c, a, b);
  }

  // ---- one record at a time, as the outbox sink delivers ----

  /** Each item projected as a batch of its own; None as soon as one is rejected. */
  ghost function ProjectEach(c: Checkpoints, items: seq<Item>): Option<Advance>
    ensures ProjectEach(c, items).Some? ==> ProjectEach(c, items).value.Advanced?
  {
    if |items| == 0 then Some(Advanced(c, [], 0)) else
    var init := ProjectEach(c, items[..|items| - 1]);
    if init.None? then None else
    var before := init.value;
    var one := [items[|items| - 1]];
    if !Accepts(before.checkpoints, one) then None else
    var r := AdvanceAll(before.checkpoints, one);
    Some(Advanced(r.checkpoints, before.applied + r.applied, before.skipped + r.skipped))
  }

  /** A batch that succeeds as one call also succeeds one record at a time, with the same
      applied sequence, the same counts and the same checkpoints. */
  lemma {:induction false} OneAtATime(c: Checkpoints, items: seq<Item>)
    requires Accepts(c, items)
    ensures ProjectEach(c, items) == Some(AdvanceAll(c, items))
  {
    hide Accepts;
    if |items| > 0 {
      var init, one := items[..|items| - 1], [items[|items| - 1]];
      assert items == init + one;
      BatchSplits(c, init, one);
      OneAtATime(c, init);
      var r := AdvanceAll(AdvanceAll(c, init).checkpoints, one);
      assert ProjectEach(c, init) == Some(AdvanceAll(c, init));
      assert r.Advanced? by {
        AdvanceConcat(c, init, one);
      }
    }
  }
}
