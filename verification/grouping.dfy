/** Grouping a sequence by a string key into an insertion-ordered dictionary, the
    `if key not in d: d[key] = ...; d[key].append(x)` idiom bot.py uses for tool names and
    brands. Python dictionaries keep keys in first-insertion order, so the buckets appear in
    the order their keys first occur. */
module Grouping {
  import opened Base

  /** One dictionary entry: a key and the elements filed under it, in input order. */
  datatype Bucket<T> = Bucket(key: string, members: seq<T>)

  /** The elements whose key is `k`, in input order. */
  function Filter<T>(xs: seq<T>, key: T -> string, k: string): (r: seq<T>)
    ensures |r| <= |xs|
    ensures forall i :: 0 <= i < |r| ==> key(r[i]) == k
  {
    if |xs| == 0 then []
    else
      var last := xs[|xs| - 1];
      assert xs == xs[..|xs| - 1] + [last];
      Filter(xs[..|xs| - 1], key, k) + (if key(last) == k then [last] else [])
  }

  /** The position of the bucket for `k` (`k in d`). */
  function FindBucket<T>(bs: seq<Bucket<T>>, k: string): (r: Option<nat>)
    ensures r.Some? ==> r.value < |bs| && bs[r.value].key == k
    ensures r.None? <==> forall i :: 0 <= i < |bs| ==> bs[i].key != k
  {
    if |bs| == 0 then None
    else if bs[0].key == k then Some(0)
    else
      match FindBucket(bs[1..], k)
      case None => None
      case Some(i) => Some(i + 1)
  }

  /** Files one element: appended to its key's bucket, or a new bucket at the end. */
  function AddTo<T>(bs: seq<Bucket<T>>, key: T -> string, x: T): seq<Bucket<T>>
  {
    match FindBucket(bs, key(x))
    case Some(i) => bs[i := bs[i].(members := bs[i].members + [x])]
    case None => bs + [Bucket(key(x), [x])]
  }

  /** The dictionary after filing every element in order. */
  function GroupBy<T>(xs: seq<T>, key: T -> string): seq<Bucket<T>>
  {
    if |xs| == 0 then [] else AddTo(GroupBy(xs[..|xs| - 1], key), key, xs[|xs| - 1])
  }

  ghost predicate DistinctKeys<T>(bs: seq<Bucket<T>>)
  {
    forall i, j :: 0 <= i < j < |bs| ==> bs[i].key != bs[j].key
  }

  /** `bs` is the grouping of `xs`: one bucket per key that occurs, holding exactly the
      elements with that key, in input order. */
  ghost predicate BucketsOf<T(!new)>(bs: seq<Bucket<T>>, xs: seq<T>, key: T -> string)
  {
    && DistinctKeys(bs)
    && (forall i :: 0 <= i < |bs| ==> bs[i].members == Filter(xs, key, bs[i].key) && bs[i].members != [])
    && (forall x :: x in xs ==> FindBucket(bs, key(x)).Some?)
  }

  /** The sum of the bucket sizes (the dictionary's values summed). */
  function TotalMembers<T>(bs: seq<Bucket<T>>): nat
  {
    if |bs| == 0 then 0 else TotalMembers(bs[..|bs| - 1]) + |bs[|bs| - 1].members|
  }

  /** The elements kept are exactly the elements of `xs` with key `k`. */
  lemma {:induction false} FilterMembers<T(!new)>(xs: seq<T>, key: T -> string, k: string)
    ensures forall x :: x in Filter(xs, key, k) <==> x in xs && key(x) == k
  {
    if |xs| > 0 {
      var init := xs[..|xs| - 1];
      assert xs == init + [xs[|xs| - 1]];
      FilterMembers(init, key, k);
    }
  }

  lemma {:induction false} FilterAppend<T(!new)>(xs: seq<T>, key: T -> string, x: T, k: string)
    ensures Filter(xs + [x], key, k) == Filter(xs, key, k) + (if key(x) == k then [x] else [])
  {
    assert (xs + [x])[..|xs + [x]| - 1] == xs;
  }

  lemma {:induction false} FilterNone<T(!new)>(xs: seq<T>, key: T -> string, k: string)
    requires forall y :: y in xs ==> key(y) != k
    ensures Filter(xs, key, k) == []
  {
    if |xs| > 0 {
      assert xs[|xs| - 1] in xs;
      FilterNone(xs[..|xs| - 1], key, k);
    }
  }

  /** Filing into an existing bucket keeps the grouping exact. */
  lemma AddToFound<T(!new)>(bs: seq<Bucket<T>>, xs: seq<T>, key: T -> string, x: T, i: nat)
    requires BucketsOf(bs, xs, key)
    requires FindBucket(bs, key(x)) == Some(i)
    ensures BucketsOf(AddTo(bs, key, x), xs + [x], key)
  {
    var bs' := AddTo(bs, key, x);
    assert bs' == bs[i := bs[i].(members := bs[i].members + [x])];
    forall j | 0 <= j < |bs'|
      ensures bs'[j].members == Filter(xs + [x], key, bs'[j].key) && bs'[j].members != []
    {
      FilterAppend(xs, key, x, bs[j].key);
    }
    forall y | y in xs + [x] ensures FindBucket(bs', key(y)).Some? {
      if y in xs {
        var j := FindBucket(bs, key(y)).value;
        assert bs'[j].key == key(y);
      } else {
        assert bs'[i].key == key(y);
      }
    }
  }

  /** Filing an element with a new key adds one bucket at the end and keeps the grouping exact. */
  lemma AddToNew<T(!new)>(bs: seq<Bucket<T>>, xs: seq<T>, key: T -> string, x: T)
    requires BucketsOf(bs, xs, key)
    requires FindBucket(bs, key(x)).None?
    ensures BucketsOf(AddTo(bs, key, x), xs + [x], key)
  {
    var b := Bucket(key(x), [x]);
    assert AddTo(bs, key, x) == bs + [b];
    NewBucketKeys(bs, b);
    NewBucketMembers(bs, xs, key, x);
    forall y | y in xs + [x] ensures FindBucket(bs + [b], key(y)).Some? {
      FindBucketAppend(bs, b, key(y));
    }
  }

  lemma NewBucketKeys<T>(bs: seq<Bucket<T>>, b: Bucket<T>)
    requires DistinctKeys(bs)
    requires FindBucket(bs, b.key).None?
    ensures DistinctKeys(bs + [b])
  {
  }

  lemma NewBucketMembers<T(!new)>(bs: seq<Bucket<T>>, xs: seq<T>, key: T -> string, x: T)
    requires BucketsOf(bs, xs, key)
    requires FindBucket(bs, key(x)).None?
    ensures var bs' := bs + [Bucket(key(x), [x])];
            forall j :: 0 <= j < |bs'| ==> bs'[j].members == Filter(xs + [x], key, bs'[j].key) && bs'[j].members != []
  {
    var bs' := bs + [Bucket(key(x), [x])];
    forall y | y in xs ensures key(y) != key(x) {
      assert FindBucket(bs, key(y)).Some?;
    }
    FilterNone(xs, key, key(x));
    forall j | 0 <= j < |bs'|
      ensures bs'[j].members == Filter(xs + [x], key, bs'[j].key) && bs'[j].members != []
    {
      FilterAppend(xs, key, x, bs'[j].key);
      if j < |bs| {
        assert bs'[j] == bs[j] && bs[j].key != key(x);
      }
    }
  }

  /** Looking a key up after appending a bucket finds it whenever it was there before or is
      the new bucket's key. */
  lemma {:induction false} FindBucketAppend<T>(bs: seq<Bucket<T>>, b: Bucket<T>, k: string)
    ensures FindBucket(bs + [b], k).Some? <==> FindBucket(bs, k).Some? || b.key == k
  {
    if |bs| > 0 {
      assert (bs + [b])[1..] == bs[1..] + [b];
      FindBucketAppend(bs[1..], b, k);
    }
  }

  /** Grouping files every element exactly once under its own key. */
  lemma {:induction false} GroupBySpec<T(!new)>(xs: seq<T>, key: T -> string)
    ensures BucketsOf(GroupBy(xs, key), xs, key)
  {
    if |xs| > 0 {
      var init := xs[..|xs| - 1];
      var x := xs[|xs| - 1];
      assert xs == init + [x];
      GroupBySpec(init, key);
      var bs := GroupBy(init, key);
      match FindBucket(bs, key(x))
      case Some(i) => AddToFound(bs, init, key, x, i);
      case None => AddToNew(bs, init, key, x);
    }
  }

  lemma {:induction false} TotalMembersUpdate<T>(bs: seq<Bucket<T>>, i: nat, b: Bucket<T>)
    requires i < |bs|
    ensures TotalMembers(bs[i := b]) == TotalMembers(bs) - |bs[i].members| + |b.members|
  {
    var n := |bs| - 1;
    if i < n {
      assert bs[i := b][..n] == bs[..n][i := b];
      TotalMembersUpdate(bs[..n], i, b);
    } else {
      assert bs[i := b][..n] == bs[..n];
    }
  }

  /** The bucket sizes add up to the number of elements grouped. */
  lemma {:induction false} GroupByTotal<T>(xs: seq<T>, key: T -> string)
    ensures TotalMembers(GroupBy(xs, key)) == |xs|
  {
    if |xs| > 0 {
      var init := xs[..|xs| - 1];
      var x := xs[|xs| - 1];
      GroupByTotal(init, key);
      var bs := GroupBy(init, key);
      match FindBucket(bs, key(x))
      case Some(i) =>
        TotalMembersUpdate(bs, i, bs[i].(members := bs[i].members + [x]));
      case None =>
        assert (bs + [Bucket(key(x), [x])])[..|bs|] == bs;
    }
  }
}
