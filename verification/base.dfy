/** Small building blocks shared by every module: optional values, the three
    outcomes of an awaited `fetch`, and the array operations the source relies on
    (`find`, `filter`, `reduce` with `+`). */
module Base {

  /** JavaScript's `undefined`/`null` versus a present value. */
  datatype Option<T> = None | Some(value: T)

  /** What an awaited `fetch` produced: a response whose `ok` flag is set (with its
      parsed body), a response whose `ok` flag is clear, or a thrown error. */
  datatype Reply<T> = Ok(body: T) | NotOk | Threw

  /** `Array.prototype.find` returning the index: the first position whose element
      satisfies `p`, or `None` when no element does. */
  function FindFirst<T>(xs: seq<T>, p: T -> bool): (r: Option<nat>)
    ensures r.Some? ==> r.value < |xs| && p(xs[r.value])
    ensures r.Some? ==> forall j :: 0 <= j < r.value ==> !p(xs[j])
    ensures r.None? <==> forall j :: 0 <= j < |xs| ==> !p(xs[j])
  {
    if |xs| == 0 then None
    else if p(xs[0]) then Some(0)
    else
      match FindFirst(xs[1..], p)
      case None => None
      case Some(k) => Some(k + 1)
  }

  /** `Array.prototype.filter`: the elements satisfying `p`, in their original order. */
  function Keep<T>(xs: seq<T>, p: T -> bool): (r: seq<T>)
    ensures |r| <= |xs|
    ensures forall x :: x in r ==> x in xs && p(x)
    ensures forall x :: x in xs && p(x) ==> x in r
    ensures multiset(r) <= multiset(xs)
  {
    if |xs| == 0 then []
    else
      assert xs == [xs[0]] + xs[1..];
      if p(xs[0]) then [xs[0]] + Keep(xs[1..], p) else Keep(xs[1..], p)
  }

  /** Filtering distributes over concatenation: kept elements stay in their order. */
  lemma {:induction false} KeepAppend<T>(a: seq<T>, b: seq<T>, p: T -> bool)
    ensures Keep(a + b, p) == Keep(a, p) + Keep(b, p)
  {
    if |a| == 0 {
      assert a + b == b;
    } else {
      assert (a + b)[1..] == a[1..] + b;
      KeepAppend(a[1..], b, p);
    }
  }

  /** A filter that every element passes returns its input unchanged. */
  lemma {:induction false} KeepAll<T>(xs: seq<T>, p: T -> bool)
    requires forall i :: 0 <= i < |xs| ==> p(xs[i])
    ensures Keep(xs, p) == xs
  {
    if |xs| > 0 {
      KeepAll(xs[1..], p);
    }
  }

  /** A filter that no element passes returns the empty sequence. */
  lemma {:induction false} KeepNone<T>(xs: seq<T>, p: T -> bool)
    requires forall i :: 0 <= i < |xs| ==> !p(xs[i])
    ensures Keep(xs, p) == []
  {
    if |xs| > 0 {
      KeepNone(xs[1..], p);
    }
  }

  /** A filter `p` and its opposite `q` share the elements between them. */
  lemma {:induction false} KeepLengthSplit<T>(xs: seq<T>, p: T -> bool, q: T -> bool)
    requires forall x :: q(x) == !p(x)
    ensures |Keep(xs, p)| + |Keep(xs, q)| == |xs|
  {
    if |xs| > 0 {
      KeepLengthSplit(xs[1..], p, q);
    }
  }

  /** Filtering twice by the same test is filtering once. */
  lemma KeepIdempotent<T>(xs: seq<T>, p: T -> bool)
    ensures Keep(Keep(xs, p), p) == Keep(xs, p)
  {
    var r := Keep(xs, p);
    forall i | 0 <= i < |r|
      ensures p(r[i])
    {
      assert r[i] in r;
    }
    KeepAll(r, p);
  }

  /** `xs.reduce((sum, x) => sum + f(x), 0)`. */
  function Sum<T>(xs: seq<T>, f: T -> int): int
  {
    if |xs| == 0 then 0 else f(xs[0]) + Sum(xs[1..], f)
  }

  lemma {:induction false} SumAppend<T>(a: seq<T>, b: seq<T>, f: T -> int)
    ensures Sum(a + b, f) == Sum(a, f) + Sum(b, f)
  {
    if |a| == 0 {
      assert a + b == b;
    } else {
      assert (a + b)[1..] == a[1..] + b;
      SumAppend(a[1..], b, f);
    }
  }

  /** A sum does not depend on the order of its terms. */
  lemma {:induction false} SumPermutation<T>(xs: seq<T>, ys: seq<T>, f: T -> int)
    requires multiset(xs) == multiset(ys)
    ensures Sum(xs, f) == Sum(ys, f)
    decreases |xs|
  {
    if |xs| == 0 {
      assert |ys| == |multiset(ys)| == 0;
    } else {
      var x := xs[0];
      assert x in multiset(ys);
      var k :| 0 <= k < |ys| && ys[k] == x;
      var rest := ys[..k] + ys[k + 1..];
      assert ys == ys[..k] + ([x] + ys[k + 1..]);
      assert xs == [x] + xs[1..];
      assert multiset(xs) == multiset{x} + multiset(xs[1..]);
      assert multiset(ys) == multiset(ys[..k]) + multiset{x} + multiset(ys[k + 1..]);
      assert multiset(rest) == multiset(ys[..k]) + multiset(ys[k + 1..]);
      assert multiset(xs[1..]) == multiset(xs) - multiset{x};
      assert multiset(rest) == multiset(ys) - multiset{x};
      SumPermutation(xs[1..], rest, f);
      SumAppend(ys[..k], [x] + ys[k + 1..], f);
      SumAppend([x], ys[k + 1..], f);
      SumAppend(ys[..k], ys[k + 1..], f);
      assert Sum([x], f) == f(x) by {
        assert [x][1..] == [];
      }
      calc {
        Sum(ys, f);
        Sum(ys[..k], f) + Sum([x] + ys[k + 1..], f);
        Sum(ys[..k], f) + f(x) + Sum(ys[k + 1..], f);
        f(x) + Sum(rest, f);
        f(x) + Sum(xs[1..], f);
        Sum(xs, f);
      }
    }
  }

  /** Splitting a list by a filter `p` and its opposite `q` splits its sum: what
      is kept plus what is dropped. */
  lemma {:induction false} SumKeepSplit<T>(xs: seq<T>, p: T -> bool, q: T -> bool, f: T -> int)
    requires forall x :: q(x) == !p(x)
    ensures Sum(xs, f) == Sum(Keep(xs, p), f) + Sum(Keep(xs, q), f)
  {
    if |xs| > 0 {
      SumKeepSplit(xs[1..], p, q, f);
    }
  }

  /** A sum of non-negative terms is non-negative and at least each of its terms. */
  lemma {:induction false} SumBounds<T>(xs: seq<T>, f: T -> int)
    requires forall x :: f(x) >= 0
    ensures Sum(xs, f) >= 0
    ensures forall i :: 0 <= i < |xs| ==> f(xs[i]) <= Sum(xs, f)
  {
    if |xs| > 0 {
      SumBounds(xs[1..], f);
      assert forall i :: 1 <= i < |xs| ==> xs[i] == xs[1..][i - 1];
    }
  }
}
