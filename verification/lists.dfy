/** Immutable list operations the state containers and screens are built
    from.  Each entity family identifies its elements by a string key
    (`id`, `productId`, ...), passed in as `key`. */
module Lists {

  /** `Array.prototype.findIndex` on a key: the first position whose key is
      `k`, or -1. */
  function IndexOf<T>(xs: seq<T>, key: T -> string, k: string): (i: int)
    ensures -1 <= i < |xs|
    ensures i == -1 <==> forall j :: 0 <= j < |xs| ==> key(xs[j]) != k
    ensures 0 <= i ==> key(xs[i]) == k && forall j :: 0 <= j < i ==> key(xs[j]) != k
  {
    if |xs| == 0 then -1
    else if key(xs[0]) == k then 0
    else
      var i := IndexOf(xs[1..], key, k);
      if i == -1 then -1 else i + 1
  }

  /** Replaces the first element whose key matches `x`'s key by `x`.  With
      no match the list comes back unchanged. */
  function ReplaceFirst<T>(xs: seq<T>, key: T -> string, x: T): (r: seq<T>)
    ensures |r| == |xs|
    ensures IndexOf(xs, key, key(x)) == -1 ==> r == xs
    ensures var i := IndexOf(xs, key, key(x));
            i != -1 ==> r[i] == x && forall j :: 0 <= j < |xs| && j != i ==> r[j] == xs[j]
  {
    var i := IndexOf(xs, key, key(x));
    if i == -1 then xs else xs[i := x]
  }

  /** Reading back by key after a replacement yields the replacement, at
      the same position. */
  lemma ReplaceThenFind<T>(xs: seq<T>, key: T -> string, x: T)
    requires IndexOf(xs, key, key(x)) != -1
    ensures IndexOf(ReplaceFirst(xs, key, x), key, key(x)) == IndexOf(xs, key, key(x))
    ensures ReplaceFirst(xs, key, x)[IndexOf(xs, key, key(x))] == x
  {
  }

  /** `xs.filter(keep)`: the elements satisfying `keep`, in their original
      order. */
  function Filter<T>(xs: seq<T>, keep: T -> bool): (r: seq<T>)
    ensures |r| <= |xs|
    ensures forall j :: 0 <= j < |r| ==> r[j] in xs && keep(r[j])
    ensures forall j :: 0 <= j < |xs| && keep(xs[j]) ==> xs[j] in r
  {
    if |xs| == 0 then []
    else (if keep(xs[0]) then [xs[0]] else []) + Filter(xs[1..], keep)
  }

  /** Filtering a list with a first element: that element if it passes,
      then the filtered rest. */
  lemma FilterCons<T>(a: T, s: seq<T>, keep: T -> bool)
    ensures Filter([a] + s, keep) == (if keep(a) then [a] else []) + Filter(s, keep)
  {
    assert ([a] + s)[1..] == s;
  }

  /** Filtering distributes over concatenation: survivors keep their
      relative order, and what happens to one part does not depend on the
      other. */
  lemma {:induction false} FilterConcat<T>(xs: seq<T>, ys: seq<T>, keep: T -> bool)
    ensures Filter(xs + ys, keep) == Filter(xs, keep) + Filter(ys, keep)
  {
    if |xs| > 0 {
      assert (xs + ys)[1..] == xs[1..] + ys;
      FilterConcat(xs[1..], ys, keep);
    } else {
      assert xs + ys == ys;
    }
  }

  /** When every element passes, nothing is dropped. */
  lemma {:induction false} FilterKeepsAll<T>(xs: seq<T>, keep: T -> bool)
    requires forall j :: 0 <= j < |xs| ==> keep(xs[j])
    ensures Filter(xs, keep) == xs
  {
    if |xs| > 0 {
      FilterKeepsAll(xs[1..], keep);
    }
  }

  /** A weaker test keeps at least as many elements. */
  lemma {:induction false} FilterMonotone<T>(xs: seq<T>, strong: T -> bool, weak: T -> bool)
    requires forall j :: 0 <= j < |xs| && strong(xs[j]) ==> weak(xs[j])
    ensures |Filter(xs, strong)| <= |Filter(xs, weak)|
  {
    if |xs| > 0 {
      FilterMonotone(xs[1..], strong, weak);
    }
  }

  /** No two elements share a key. */
  predicate DistinctKeys<T>(xs: seq<T>, key: T -> string)
  {
    forall i, j :: 0 <= i < j < |xs| ==> key(xs[i]) != key(xs[j])
  }

  lemma {:induction false} FilterKeepsDistinctKeys<T>(xs: seq<T>, keep: T -> bool, key: T -> string)
    requires DistinctKeys(xs, key)
    ensures DistinctKeys(Filter(xs, keep), key)
  {
    if |xs| > 0 {
      FilterKeepsDistinctKeys(xs[1..], keep, key);
      var rest := Filter(xs[1..], keep);
      forall j | 0 <= j < |rest| ensures key(rest[j]) != key(xs[0]) {
        var k :| 0 <= k < |xs[1..]| && xs[1..][k] == rest[j];
        assert xs[k + 1] == rest[j];
      }
    }
  }

  /** `xs.filter(e => key(e) !== k)`: drops every element with key `k`. */
  function RemoveAll<T>(xs: seq<T>, key: T -> string, k: string): (r: seq<T>)
    ensures |r| <= |xs|
    ensures forall j :: 0 <= j < |r| ==> r[j] in xs && key(r[j]) != k
    ensures forall j :: 0 <= j < |xs| && key(xs[j]) != k ==> xs[j] in r
  {
    Filter(xs, x => key(x) != k)
  }

  lemma RemoveAllConcat<T>(xs: seq<T>, ys: seq<T>, key: T -> string, k: string)
    ensures RemoveAll(xs + ys, key, k) == RemoveAll(xs, key, k) + RemoveAll(ys, key, k)
  {
    FilterConcat(xs, ys, x => key(x) != k);
  }

  /** A list with no element of key `k` is left exactly as it was. */
  lemma RemoveAllAbsent<T>(xs: seq<T>, key: T -> string, k: string)
    requires forall j :: 0 <= j < |xs| ==> key(xs[j]) != k
    ensures RemoveAll(xs, key, k) == xs
  {
    FilterKeepsAll(xs, x => key(x) != k);
  }

  /** Removing twice removes nothing more. */
  lemma RemoveAllIdempotent<T>(xs: seq<T>, key: T -> string, k: string)
    ensures RemoveAll(RemoveAll(xs, key, k), key, k) == RemoveAll(xs, key, k)
  {
    RemoveAllAbsent(RemoveAll(xs, key, k), key, k);
  }

  // ---------------------------------------------------------------------
  // Distinct values in first-occurrence order (`Array.from(new Set(xs))`)

  predicate NoDuplicates<T(==)>(xs: seq<T>)
  {
    forall i, j :: 0 <= i < j < |xs| ==> xs[i] != xs[j]
  }

  /** Position of the first occurrence of `x` in `xs`. */
  function FirstIndex<T(==)>(xs: seq<T>, x: T): (i: nat)
    requires x in xs
    ensures i < |xs| && xs[i] == x && x !in xs[..i]
  {
    if xs[0] == x then 0 else FirstIndex(xs[1..], x) + 1
  }

  lemma FirstIndexPrefix<T>(xs: seq<T>, n: nat, x: T)
    requires n <= |xs| && x in xs[..n]
    ensures FirstIndex(xs, x) == FirstIndex(xs[..n], x)
  {
    var i := FirstIndex(xs[..n], x);
    var k := FirstIndex(xs, x);
    assert xs[..n][..i] == xs[..i];
    assert forall j :: 0 <= j < i ==> xs[..i][j] != x;
    assert forall j :: 0 <= j < k ==> xs[..k][j] != x;
  }

  /** `r` holds each value of `xs` once and nothing else, in the order of
      their first occurrences. */
  predicate DistinctOf<T(==)>(xs: seq<T>, r: seq<T>)
  {
    && NoDuplicates(r)
    && (forall i :: 0 <= i < |r| ==> r[i] in xs)
    && (forall i :: 0 <= i < |xs| ==> xs[i] in r)
    && (forall i, j :: 0 <= i < j < |r| ==> r[i] in xs && r[j] in xs && FirstIndex(xs, r[i]) < FirstIndex(xs, r[j]))
  }

  /** The distinct elements of `xs`, each at the place it first occurs. */
  function Distinct<T(==)>(xs: seq<T>): (r: seq<T>)
    ensures |r| <= |xs|
    ensures DistinctOf(xs, r)
  {
    if |xs| == 0 then []
    else
      var init := xs[..|xs| - 1];
      var last := xs[|xs| - 1];
      var d := Distinct(init);
      assert xs == init + [last];
      if last in d then
        DistinctSeen(init, last, d);
        d
      else
        DistinctUnseen(init, last, d);
        d + [last]
  }

  /** First occurrences in a list are where they were before something was
      appended. */
  lemma FirstIndexSnoc<T>(init: seq<T>, last: T, d: seq<T>)
    requires forall i :: 0 <= i < |d| ==> d[i] in init
    ensures forall i :: 0 <= i < |d| ==> d[i] in init + [last] && FirstIndex(init + [last], d[i]) == FirstIndex(init, d[i])
  {
    var xs := init + [last];
    assert xs[..|init|] == init;
    forall i | 0 <= i < |d| ensures d[i] in xs && FirstIndex(xs, d[i]) == FirstIndex(init, d[i]) {
      FirstIndexPrefix(xs, |init|, d[i]);
    }
  }

  /** Appending a value already seen leaves the distinct values as they
      were. */
  lemma DistinctSeen<T>(init: seq<T>, last: T, d: seq<T>)
    requires DistinctOf(init, d) && last in d
    ensures DistinctOf(init + [last], d)
  {
    FirstIndexSnoc(init, last, d);
  }

  /** Appending a new value adds it at the end of the distinct values. */
  lemma DistinctUnseen<T>(init: seq<T>, last: T, d: seq<T>)
    requires DistinctOf(init, d) && last !in d
    ensures DistinctOf(init + [last], d + [last])
  {
    var xs := init + [last];
    var r := d + [last];
    FirstIndexSnoc(init, last, d);
    assert last !in init;
    assert FirstIndex(xs, last) == |init|;
    forall i, j | 0 <= i < j < |r| ensures FirstIndex(xs, r[i]) < FirstIndex(xs, r[j]) {
      if j < |d| {
        assert r[i] == d[i] && r[j] == d[j];
      } else {
        assert r[i] == d[i];
      }
    }
  }

  /** The set of elements of a list. */
  function Elements<T>(xs: seq<T>): set<T>
  {
    set x | x in xs
  }

  /** A list without duplicates has as many elements as its set. */
  lemma {:induction false} NoDuplicatesCard<T>(xs: seq<T>)
    requires NoDuplicates(xs)
    ensures |Elements(xs)| == |xs|
  {
    if |xs| > 0 {
      assert NoDuplicates(xs[1..]) by {
        forall i, j | 0 <= i < j < |xs[1..]| ensures xs[1..][i] != xs[1..][j] {
          assert xs[1..][i] == xs[i + 1] && xs[1..][j] == xs[j + 1];
        }
      }
      NoDuplicatesCard(xs[1..]);
      assert Elements(xs) == {xs[0]} + Elements(xs[1..]);
      assert xs[0] !in Elements(xs[1..]) by {
        forall i | 0 <= i < |xs[1..]| ensures xs[1..][i] != xs[0] {
          assert xs[1..][i] == xs[i + 1];
        }
      }
    }
  }

  /** Two lists without duplicates holding the same elements have the
      same length. */
  lemma SameElementsSameLength<T>(xs: seq<T>, ys: seq<T>)
    requires NoDuplicates(xs) && NoDuplicates(ys)
    requires forall i :: 0 <= i < |xs| ==> xs[i] in ys
    requires forall j :: 0 <= j < |ys| ==> ys[j] in xs
    ensures |xs| == |ys|
  {
    assert Elements(xs) == Elements(ys);
    NoDuplicatesCard(xs);
    NoDuplicatesCard(ys);
  }

  /** A list without duplicates holding exactly the values of `xs` is as
      long as `Distinct(xs)`. */
  lemma DistinctLength<T>(xs: seq<T>, ys: seq<T>)
    requires NoDuplicates(ys)
    requires forall i :: 0 <= i < |ys| ==> ys[i] in xs
    requires forall k :: 0 <= k < |xs| ==> xs[k] in ys
    ensures |ys| == |Distinct(xs)|
  {
    var d := Distinct(xs);
    forall j | 0 <= j < |d| ensures d[j] in ys {
      var k :| 0 <= k < |xs| && xs[k] == d[j];
    }
    SameElementsSameLength(ys, d);
  }
}
