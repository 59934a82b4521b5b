/** The array operations the page and the two services share: `filter`, and the
    `findIndex` / `find` searches by key. */
module Lists {

  import opened Wrappers

  /** `s.filter(keep)` */
  function Filter<T>(s: seq<T>, keep: T -> bool): (r: seq<T>)
    ensures |r| <= |s|
    decreases |s|
  {
    if |s| == 0 then []
    else (if keep(s[0]) then [s[0]] else []) + Filter(s[1..], keep)
  }

  /** The filter keeps exactly the elements that satisfy `keep`. */
  lemma {:induction false} FilterMembers<T>(s: seq<T>, keep: T -> bool)
    ensures forall i :: 0 <= i < |Filter(s, keep)| ==> Filter(s, keep)[i] in s && keep(Filter(s, keep)[i])
    ensures forall i :: 0 <= i < |s| && keep(s[i]) ==> s[i] in Filter(s, keep)
    decreases |s|
  {
    if |s| > 0 {
      FilterMembers(s[1..], keep);
    }
  }

  /** Filtering works piecewise, so it keeps the relative order of what it keeps. */
  lemma {:induction false} FilterAppend<T>(a: seq<T>, b: seq<T>, keep: T -> bool)
    ensures Filter(a + b, keep) == Filter(a, keep) + Filter(b, keep)
    decreases |a|
  {
    if |a| == 0 {
      assert a + b == b;
    } else {
      var head := if keep(a[0]) then [a[0]] else [];
      assert (a + b)[0] == a[0];
      assert (a + b)[1..] == a[1..] + b;
      FilterAppend(a[1..], b, keep);
      assert Filter(a + b, keep) == head + (Filter(a[1..], keep) + Filter(b, keep));
      assert Filter(a, keep) == head + Filter(a[1..], keep);
    }
  }

  /** Keeping everything changes nothing. */
  lemma {:induction false} FilterKeepsAll<T>(s: seq<T>, keep: T -> bool)
    requires forall i :: 0 <= i < |s| ==> keep(s[i])
    ensures Filter(s, keep) == s
    decreases |s|
  {
    if |s| > 0 {
      FilterKeepsAll(s[1..], keep);
    }
  }

  /** Replacing one element changes the filtered length by what the old and the
      new element each contribute. */
  lemma FilterReplace<T>(s: seq<T>, k: nat, x: T, keep: T -> bool)
    requires k < |s|
    ensures |Filter(s[k := x], keep)| ==
      |Filter(s, keep)| - (if keep(s[k]) then 1 else 0) + (if keep(x) then 1 else 0)
  {
    var front, back := s[..k], s[k + 1..];
    assert s == front + [s[k]] + back;
    assert s[k := x] == front + [x] + back;
    FilterAppend(front + [s[k]], back, keep);
    FilterAppend(front, [s[k]], keep);
    FilterAppend(front + [x], back, keep);
    FilterAppend(front, [x], keep);
    assert Filter([s[k]], keep) == (if keep(s[k]) then [s[k]] else []) + Filter([], keep);
    assert Filter([x], keep) == (if keep(x) then [x] else []) + Filter([], keep);
  }

  /** `xs.map(f)` for an `f` that may throw (`None`): the results in order, or `None`
      as soon as one call throws. */
  function MapAll<A, B>(xs: seq<A>, f: A -> Option<B>): (r: Option<seq<B>>)
    ensures r.Some? ==> |r.value| == |xs|
    decreases |xs|
  {
    if |xs| == 0 then Some([])
    else
      match (f(xs[0]), MapAll(xs[1..], f))
      case (Some(y), Some(ys)) => Some([y] + ys)
      case _ => None
  }

  /** The map succeeds exactly when every call does, and its results line up with
      the inputs one for one. */
  lemma {:induction false} MapAllPointwise<A, B>(xs: seq<A>, f: A -> Option<B>)
    ensures MapAll(xs, f).Some? <==> forall i :: 0 <= i < |xs| ==> f(xs[i]).Some?
    ensures MapAll(xs, f).Some? ==>
      forall i :: 0 <= i < |xs| ==> MapAll(xs, f).value[i] == f(xs[i]).value
    decreases |xs|
  {
    if |xs| > 0 {
      MapAllPointwise(xs[1..], f);
      assert forall i :: 1 <= i < |xs| ==> xs[1..][i - 1] == xs[i];
    }
  }

  /** `s.findIndex(e => key(e) === id)`: the first position whose key is `id`, or -1. */
  function FirstIndex<T, K(==)>(s: seq<T>, key: T -> K, id: K): (k: int)
    ensures -1 <= k < |s|
    ensures k == -1 <==> forall i :: 0 <= i < |s| ==> key(s[i]) != id
    ensures 0 <= k ==> key(s[k]) == id && forall i :: 0 <= i < k ==> key(s[i]) != id
    decreases |s|
  {
    if |s| == 0 then -1
    else if key(s[0]) == id then 0
    else
      var k := FirstIndex(s[1..], key, id);
      if k < 0 then -1 else k + 1
  }

  /** `s.find(e => key(e) === id)`, with `None` for `undefined`. */
  function Find<T, K(==)>(s: seq<T>, key: T -> K, id: K): (r: Option<T>)
    ensures r.None? <==> forall i :: 0 <= i < |s| ==> key(s[i]) != id
    ensures r.Some? ==> r.value in s && key(r.value) == id
    ensures r.Some? ==>
      exists k :: 0 <= k < |s| && r.value == s[k] && key(s[k]) == id &&
        forall i :: 0 <= i < k ==> key(s[i]) != id
  {
    var k := FirstIndex(s, key, id);
    if k < 0 then None else Some(s[k])
  }

  /** Searching `a + b` finds the match in `a` when there is one, else the one in `b`. */
  lemma FirstIndexAppend<T, K>(a: seq<T>, b: seq<T>, key: T -> K, id: K)
    ensures FirstIndex(a + b, key, id) ==
      if FirstIndex(a, key, id) >= 0 then FirstIndex(a, key, id)
      else if FirstIndex(b, key, id) >= 0 then |a| + FirstIndex(b, key, id)
      else -1
  {
    forall t | 0 <= t < |a| ensures (a + b)[t] == a[t] { }
    forall t | 0 <= t < |b| ensures (a + b)[|a| + t] == b[t] { }
  }

  /** How many elements have key `id`. */
  function Count<T, K(==)>(s: seq<T>, key: T -> K, id: K): nat
    decreases |s|
  {
    if |s| == 0 then 0 else (if key(s[0]) == id then 1 else 0) + Count(s[1..], key, id)
  }

  lemma {:induction false} CountAppend<T, K>(a: seq<T>, b: seq<T>, key: T -> K, id: K)
    ensures Count(a + b, key, id) == Count(a, key, id) + Count(b, key, id)
    decreases |a|
  {
    if |a| == 0 {
      assert a + b == b;
    } else {
      assert (a + b)[0] == a[0];
      assert (a + b)[1..] == a[1..] + b;
      CountAppend(a[1..], b, key, id);
    }
  }

  /** The search fails exactly when no element has the key. */
  lemma {:induction false} CountZeroIff<T, K>(s: seq<T>, key: T -> K, id: K)
    ensures Count(s, key, id) == 0 <==> FirstIndex(s, key, id) == -1
    decreases |s|
  {
    if |s| > 0 {
      CountZeroIff(s[1..], key, id);
      if FirstIndex(s[1..], key, id) >= 0 {
        var k := FirstIndex(s[1..], key, id);
        assert s[1..][k] == s[k + 1];
      }
    }
  }

  /** Cutting out the element at `k` takes its key's count down by one. */
  lemma SpliceCount<T, K>(s: seq<T>, k: nat, key: T -> K, id: K)
    requires k < |s|
    ensures Count(s[..k] + s[k + 1..], key, id) ==
      Count(s, key, id) - (if key(s[k]) == id then 1 else 0)
  {
    var a, x, b := s[..k], s[k], s[k + 1..];
    assert s == a + ([x] + b);
    CountAppend(a, [x] + b, key, id);
    CountAppend([x], b, key, id);
    CountAppend(a, b, key, id);
    assert Count([x], key, id) == (if key(x) == id then 1 else 0) by {
      assert [x][1..] == [];
    }
  }

  /** `splice(findIndex(...), 1)` on a list value: the first element with the key is
      cut out and returned; with none the list stays and the result is `None`. */
  function DeleteFirst<T, K(==)>(s: seq<T>, key: T -> K, id: K): (r: (seq<T>, Option<T>))
    ensures r.1 == Find(s, key, id)
    ensures r.1.None? <==> Count(s, key, id) == 0
    ensures r.1.None? ==> r.0 == s
    ensures r.1.Some? ==> |r.0| == |s| - 1
    ensures Count(r.0, key, id) == Count(s, key, id) - (if r.1.Some? then 1 else 0)
    ensures r.1.Some? ==>
      exists k :: 0 <= k < |s| && r.1.value == s[k] && key(s[k]) == id &&
        (forall i :: 0 <= i < k ==> key(s[i]) != id) && r.0 == s[..k] + s[k + 1..]
  {
    var k := FirstIndex(s, key, id);
    CountZeroIff(s, key, id);
    if k < 0 then (s, None)
    else
      SpliceCount(s, k, key, id);
      (s[..k] + s[k + 1..], Some(s[k]))
  }

  /** Deleting a key that occurs at most once leaves none of it behind. */
  lemma DeleteLeavesNone<T, K>(s: seq<T>, key: T -> K, id: K)
    requires Count(s, key, id) <= 1
    ensures Find(DeleteFirst(s, key, id).0, key, id) == None
  {
    CountZeroIff(DeleteFirst(s, key, id).0, key, id);
  }

  /** After appending `x`, a search for its key finds the earlier element with that
      key when there is one, and `x` itself otherwise. */
  lemma FindAfterAppend<T, K>(s: seq<T>, x: T, key: T -> K)
    ensures Find(s + [x], key, key(x)) ==
      if Find(s, key, key(x)).Some? then Find(s, key, key(x)) else Some(x)
  {
    FirstIndexAppend(s, [x], key, key(x));
    assert key([x][0]) == key(x);
    assert (s + [x])[|s|] == x;
    var k := FirstIndex(s, key, key(x));
    if k >= 0 {
      assert (s + [x])[k] == s[k];
    }
  }
}
