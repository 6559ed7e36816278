/** The order JavaScript's default sort gives strings, and sorting distinct keys by it. */
module StringOrder {

  /** The string order of JavaScript's default sort. */
  predicate Less(a: string, b: string) {
    |b| > 0 && (|a| == 0 || a[0] < b[0] || (a[0] == b[0] && Less(a[1..], b[1..])))
  }

  lemma {:induction false} LessIsTransitive(a: string, b: string, c: string)
    requires Less(a, b) && Less(b, c)
    ensures Less(a, c)
  {
    if |a| > 0 && a[0] == b[0] && b[0] == c[0] {
      LessIsTransitive(a[1..], b[1..], c[1..]);
    }
  }

  lemma {:induction false} LessIsTotal(a: string, b: string)
    ensures Less(a, b) || a == b || Less(b, a)
    ensures !Less(a, a)
  {
    if |a| > 0 {
      LessIsTotal(a[1..], a[1..]);
      if |b| > 0 && a[0] == b[0] {
        LessIsTotal(a[1..], b[1..]);
        if a[1..] == b[1..] {
          assert a == [a[0]] + a[1..] == [b[0]] + b[1..] == b;
        }
      }
    }
  }

  ghost predicate StrictlySorted(keys: seq<string>) {
    forall i, j :: 0 <= i < j < |keys| ==> Less(keys[i], keys[j])
  }

  function Insert(key: string, sorted: seq<string>): seq<string> {
    if |sorted| == 0 then [key]
    else if key == sorted[0] then sorted
    else if Less(key, sorted[0]) then [key] + sorted
    else [sorted[0]] + Insert(key, sorted[1..])
  }

  /** The distinct keys in ascending order. */
  function SortedKeys(keys: seq<string>): seq<string> {
    if |keys| == 0 then [] else Insert(keys[0], SortedKeys(keys[1..]))
  }

  lemma {:induction false} InsertSorts(key: string, sorted: seq<string>)
    requires StrictlySorted(sorted)
    ensures StrictlySorted(Insert(key, sorted))
    ensures forall x :: x in Insert(key, sorted) <==> x == key || x in sorted
  {
    if |sorted| > 0 && key != sorted[0] {
      LessIsTotal(key, sorted[0]);
      if Less(key, sorted[0]) {
        forall i | 1 <= i < |sorted| ensures Less(key, sorted[i]) {
          LessIsTransitive(key, sorted[0], sorted[i]);
        }
      } else {
        InsertSorts(key, sorted[1..]);
        var rest := Insert(key, sorted[1..]);
        assert sorted == [sorted[0]] + sorted[1..];
        forall i | 0 <= i < |rest| ensures Less(sorted[0], rest[i]) {
          assert rest[i] in rest;
        }
      }
    }
  }

  lemma {:induction false} SortedKeysSorts(keys: seq<string>)
    ensures StrictlySorted(SortedKeys(keys))
    ensures forall x :: x in SortedKeys(keys) <==> x in keys
  {
    if |keys| > 0 {
      SortedKeysSorts(keys[1..]);
      InsertSorts(keys[0], SortedKeys(keys[1..]));
    }
  }
}
