/**
 * Ruby's `Enumerable#group_by`, as used to turn the flat forecast list into a
 * hash from calendar date to samples. The hash is ordered: buckets appear in the
 * order in which their key is first met, and each bucket keeps input order.
 * `GroupBy` scans the input left to right and appends, as Ruby does; the lemmas
 * relate it to two reference definitions, `FirstSeen` (the keys in order of
 * first appearance) and `Filter` (the input restricted to one key).
 */
module Grouping {
  import opened Common

  datatype Bucket<K, T> = Bucket(key: K, items: seq<T>)

  /** The index of the bucket for `k`, or nil when there is none. */
  function IndexOf<K(==), T>(g: seq<Bucket<K, T>>, k: K): (r: Option<nat>)
    ensures r.None? <==> forall i :: 0 <= i < |g| ==> g[i].key != k
    ensures r.Some? ==> r.value < |g| && g[r.value].key == k
    ensures r.Some? ==> forall j :: 0 <= j < r.value ==> g[j].key != k
    decreases |g|
  {
    if g == [] then None
    else if g[0].key == k then Some(0)
    else match IndexOf(g[1..], k)
      case Some(i) => Some(i + 1)
      case None => None
  }

  /**
   * `(hash[k] ||= []) << x`: adds `x` at the end of the bucket for `k`, or opens
   * a new bucket for `k` after all the others. Existing buckets keep their place
   * and key, and every other key's bucket is left as it was.
   */
  function Insert<K(==), T>(g: seq<Bucket<K, T>>, k: K, x: T): (r: seq<Bucket<K, T>>)
    ensures |r| == if IndexOf(g, k).Some? then |g| else |g| + 1
    ensures forall i :: 0 <= i < |g| ==> r[i].key == g[i].key && (r[i] == g[i] || r[i].items == g[i].items + [x])
    ensures |r| > |g| ==> r[|g|] == Bucket(k, [x])
    ensures forall i :: 0 <= i < |g| && g[i].key != k ==> r[i] == g[i]
    ensures IndexOf(g, k).Some? ==> r[IndexOf(g, k).value].items == g[IndexOf(g, k).value].items + [x]
  {
    match IndexOf(g, k)
    case Some(i) => g[i := Bucket(k, g[i].items + [x])]
    case None => g + [Bucket(k, [x])]
  }

  /** The bucket found for `k` is the first one with key `k`. */
  lemma {:induction false} IndexOfFirst<K, T>(g: seq<Bucket<K, T>>, k: K, i: nat)
    requires i < |g| && g[i].key == k
    requires forall j :: 0 <= j < i ==> g[j].key != k
    ensures IndexOf(g, k) == Some(i)
    decreases |g|
  {
    if i > 0 {
      IndexOfFirst(g[1..], k, i - 1);
    }
  }

  /** After inserting under `k`, the bucket for `k` ends with `x`, after what it held before. */
  lemma InsertGet<K, T>(g: seq<Bucket<K, T>>, k: K, x: T)
    ensures Get(Insert(g, k, x), k) == Some(if Get(g, k).Some? then Get(g, k).value + [x] else [x])
  {
    match IndexOf(g, k)
    case Some(i) => IndexOfFirst(Insert(g, k, x), k, i);
    case None => IndexOfFirst(Insert(g, k, x), k, |g|);
  }

  /** Inserting under `k` leaves the bucket of every other key as it was. */
  lemma InsertKeepsOthers<K, T>(g: seq<Bucket<K, T>>, k: K, x: T, k': K)
    requires k' != k
    ensures Get(Insert(g, k, x), k') == Get(g, k')
  {
  }

  /**
   * `xs.group_by(&key)`: each element in turn is inserted under its key. The
   * full description of the result, against `FirstSeen` and `Filter`, is
   * `GroupByBuckets` below.
   */
  function GroupBy<K(==), T>(xs: seq<T>, key: T -> K): (r: seq<Bucket<K, T>>)
    ensures |r| <= |xs|
    ensures r == [] <==> xs == []
    ensures forall i :: 0 <= i < |r| ==> r[i].items != []
    decreases |xs|
  {
    if xs == [] then []
    else Insert(GroupBy(xs[..|xs| - 1], key), key(xs[|xs| - 1]), xs[|xs| - 1])
  }

  /** `hash[k]` on the grouped hash. */
  function Get<K(==), T>(g: seq<Bucket<K, T>>, k: K): (r: Option<seq<T>>)
    ensures r.None? <==> forall i :: 0 <= i < |g| ==> g[i].key != k
    ensures r.Some? ==> exists i :: 0 <= i < |g| && g[i].key == k && g[i].items == r.value
  {
    match IndexOf(g, k)
    case Some(i) => Some(g[i].items)
    case None => None
  }

  // ---------------------------------------------------------------------------
  // Reference definitions

  /** The keys of `xs`, each once, in the order in which each first appears. */
  function FirstSeen<K(==), T>(xs: seq<T>, key: T -> K): seq<K>
    decreases |xs|
  {
    if xs == [] then []
    else
      var f := FirstSeen(xs[..|xs| - 1], key);
      if key(xs[|xs| - 1]) in f then f else f + [key(xs[|xs| - 1])]
  }

  /** The elements of `xs` whose key is `k`, in input order. */
  function Filter<K(==), T>(xs: seq<T>, key: T -> K, k: K): seq<T>
  {
    if xs == [] then []
    else (if key(xs[0]) == k then [xs[0]] else []) + Filter(xs[1..], key, k)
  }

  predicate Distinct<K(==)>(s: seq<K>)
  {
    forall i, j :: 0 <= i < j < |s| ==> s[i] != s[j]
  }

  /** The number of elements over all buckets. */
  function Size<K, T>(g: seq<Bucket<K, T>>): nat
  {
    if g == [] then 0 else |g[0].items| + Size(g[1..])
  }

  // ---------------------------------------------------------------------------
  // Properties of the reference definitions

  /** A key is among the first-seen keys exactly when some element has it. */
  lemma {:induction false} FirstSeenMembers<K, T>(xs: seq<T>, key: T -> K, k: K)
    ensures k in FirstSeen(xs, key) <==> exists p :: 0 <= p < |xs| && key(xs[p]) == k
    decreases |xs|
  {
    if xs != [] {
      var init := xs[..|xs| - 1];
      FirstSeenMembers(init, key, k);
      assert forall p :: 0 <= p < |init| ==> init[p] == xs[p];
      if exists p :: 0 <= p < |xs| && key(xs[p]) == k {
        var p :| 0 <= p < |xs| && key(xs[p]) == k;
        if p < |init| {
          assert key(init[p]) == k;
        }
      }
    }
  }

  /** No key is listed twice. */
  lemma {:induction false} FirstSeenDistinct<K, T>(xs: seq<T>, key: T -> K)
    ensures Distinct(FirstSeen(xs, key))
    decreases |xs|
  {
    if xs != [] {
      FirstSeenDistinct(xs[..|xs| - 1], key);
    }
  }

  /**
   * Keys are listed in order of first appearance: when key `i` is listed
   * before key `j`, some element with key `i` comes before every element
   * with key `j`.
   */
  lemma {:induction false} FirstSeenOrder<K, T>(xs: seq<T>, key: T -> K, i: nat, j: nat)
    requires i < j < |FirstSeen(xs, key)|
    ensures exists p :: 0 <= p < |xs| && key(xs[p]) == FirstSeen(xs, key)[i] &&
                        forall q :: 0 <= q <= p ==> key(xs[q]) != FirstSeen(xs, key)[j]
    decreases |xs|
  {
    var init := xs[..|xs| - 1];
    var f := FirstSeen(init, key);
    var fs := FirstSeen(xs, key);
    assert forall p :: 0 <= p < |init| ==> init[p] == xs[p];
    if j < |f| {
      FirstSeenOrder(init, key, i, j);
      var p :| 0 <= p < |init| && key(init[p]) == f[i] &&
               forall q :: 0 <= q <= p ==> key(init[q]) != f[j];
      assert key(xs[p]) == fs[i];
      assert forall q :: 0 <= q <= p ==> key(xs[q]) != fs[j];
    } else {
      // the j-th key is the last element's key, seen for the first time
      assert fs[j] == key(xs[|xs| - 1]) && fs[j] !in f;
      FirstSeenMembers(init, key, fs[j]);
      FirstSeenMembers(init, key, f[i]);
      var p :| 0 <= p < |init| && key(init[p]) == f[i];
      assert key(xs[p]) == fs[i];
      forall q | 0 <= q <= p
        ensures key(xs[q]) != fs[j]
      {
        assert key(init[q]) != fs[j];
      }
    }
  }

  lemma {:induction false} FilterAppend<K, T>(xs: seq<T>, x: T, key: T -> K, k: K)
    ensures Filter(xs + [x], key, k) == Filter(xs, key, k) + (if key(x) == k then [x] else [])
    decreases |xs|
  {
    if xs == [] {
      assert [x][1..] == [];
    } else {
      assert (xs + [x])[1..] == xs[1..] + [x];
      FilterAppend(xs[1..], x, key, k);
    }
  }

  /** Every element of `Filter(xs, key, k)` is an element of `xs` with key `k`, and the other way round. */
  lemma {:induction false} FilterMembers<K, T>(xs: seq<T>, key: T -> K, k: K, y: T)
    ensures y in Filter(xs, key, k) <==> y in xs && key(y) == k
    decreases |xs|
  {
    if xs != [] {
      FilterMembers(xs[1..], key, k, y);
      assert xs == [xs[0]] + xs[1..];
    }
  }

  // ---------------------------------------------------------------------------
  // GroupBy against the reference definitions

  lemma {:induction false} SizeAppend<K, T>(g: seq<Bucket<K, T>>, b: Bucket<K, T>)
    ensures Size(g + [b]) == Size(g) + |b.items|
    decreases |g|
  {
    if g == [] {
      assert [b][1..] == [];
    } else {
      assert (g + [b])[1..] == g[1..] + [b];
      SizeAppend(g[1..], b);
    }
  }

  lemma {:induction false} SizeUpdate<K, T>(g: seq<Bucket<K, T>>, i: nat, b: Bucket<K, T>)
    requires i < |g|
    ensures Size(g[i := b]) == Size(g) - |g[i].items| + |b.items|
    decreases |g|
  {
    if i > 0 {
      assert g[i := b][1..] == g[1..][i - 1 := b];
      SizeUpdate(g[1..], i - 1, b);
    }
  }

  /**
   * The structure of the grouped hash: bucket `i` holds the `i`-th key in order
   * of first appearance and exactly the input filtered to that key, in input
   * order; no element is lost or duplicated.
   */
  lemma {:induction false} GroupByBuckets<K, T>(xs: seq<T>, key: T -> K)
    ensures var g := GroupBy(xs, key);
      && |g| == |FirstSeen(xs, key)|
      && (forall i :: 0 <= i < |g| ==> g[i].key == FirstSeen(xs, key)[i])
      && (forall i :: 0 <= i < |g| ==> g[i].items == Filter(xs, key, g[i].key))
      && Size(g) == |xs|
    decreases |xs|
  {
    if xs != [] {
      var init, x := xs[..|xs| - 1], xs[|xs| - 1];
      assert xs == init + [x];
      var g0 := GroupBy(init, key);
      var f := FirstSeen(init, key);
      var g := GroupBy(xs, key);
      GroupByBuckets(init, key);
      FirstSeenDistinct(init, key);
      assert g == Insert(g0, key(x), x);
      match IndexOf(g0, key(x))
      case Some(i) =>
        assert key(x) in f;
        SizeUpdate(g0, i, Bucket(key(x), g0[i].items + [x]));
        forall j | 0 <= j < |g|
          ensures g[j].items == Filter(xs, key, g[j].key)
        {
          FilterAppend(init, x, key, g[j].key);
        }
      case None =>
        assert key(x) !in f;
        SizeAppend(g0, Bucket(key(x), [x]));
        forall j | 0 <= j < |g|
          ensures g[j].items == Filter(xs, key, g[j].key)
        {
          FilterAppend(init, x, key, g[j].key);
          if j == |g0| {
            FirstSeenMembers(init, key, key(x));
            FilterNone(init, key, key(x));
          }
        }
    }
  }

  lemma {:induction false} FilterNone<K, T>(xs: seq<T>, key: T -> K, k: K)
    requires forall p :: 0 <= p < |xs| ==> key(xs[p]) != k
    ensures Filter(xs, key, k) == []
    decreases |xs|
  {
    if xs != [] {
      assert forall p :: 0 <= p < |xs[1..]| ==> xs[1..][p] == xs[p + 1];
      FilterNone(xs[1..], key, k);
    }
  }

  /** Buckets are non-empty and their keys are distinct. */
  lemma {:induction false} GroupByShape<K, T>(xs: seq<T>, key: T -> K)
    ensures var g := GroupBy(xs, key);
      && (forall i :: 0 <= i < |g| ==> g[i].items != [])
      && (forall i, j :: 0 <= i < j < |g| ==> g[i].key != g[j].key)
  {
    var g := GroupBy(xs, key);
    GroupByBuckets(xs, key);
    FirstSeenDistinct(xs, key);
    forall i | 0 <= i < |g|
      ensures g[i].items != []
    {
      var k := FirstSeen(xs, key)[i];
      FirstSeenMembers(xs, key, k);
      var p :| 0 <= p < |xs| && key(xs[p]) == k;
      FilterMembers(xs, key, k, xs[p]);
    }
  }

  /**
   * Every element lands in the bucket for its own key and in no other bucket.
   */
  lemma GroupByPlacement<K, T>(xs: seq<T>, key: T -> K, p: nat)
    requires p < |xs|
    ensures var g := GroupBy(xs, key);
      && (exists i :: 0 <= i < |g| && g[i].key == key(xs[p]))
      && (forall i :: 0 <= i < |g| ==> (xs[p] in g[i].items <==> g[i].key == key(xs[p])))
  {
    var g := GroupBy(xs, key);
    GroupByBuckets(xs, key);
    FirstSeenMembers(xs, key, key(xs[p]));
    var i :| 0 <= i < |FirstSeen(xs, key)| && FirstSeen(xs, key)[i] == key(xs[p]);
    assert g[i].key == key(xs[p]);
    forall i | 0 <= i < |g|
      ensures xs[p] in g[i].items <==> g[i].key == key(xs[p])
    {
      FilterMembers(xs, key, g[i].key, xs[p]);
    }
  }

  /**
   * Looking a key up in the grouped hash gives the input filtered to that key
   * when some element has it, and nil otherwise.
   */
  lemma GroupByGet<K, T>(xs: seq<T>, key: T -> K, k: K)
    ensures (exists p :: 0 <= p < |xs| && key(xs[p]) == k) ==> Get(GroupBy(xs, key), k) == Some(Filter(xs, key, k))
    ensures (forall p :: 0 <= p < |xs| ==> key(xs[p]) != k) ==> Get(GroupBy(xs, key), k) == None
  {
    var g := GroupBy(xs, key);
    GroupByBuckets(xs, key);
    FirstSeenMembers(xs, key, k);
  }
}
