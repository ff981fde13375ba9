/** Small sequence combinators shared by the effect-log projections. */
module Seqs {
  import opened Wrappers

  /** Keeps, in order, the images of the elements `f` maps to a value. */
  function FilterMap<A, B>(xs: seq<A>, f: A -> Option<B>): (r: seq<B>)
    ensures |r| <= |xs|
    decreases |xs|
  {
    if |xs| == 0 then []
    else FilterMap(xs[..|xs| - 1], f) + match f(xs[|xs| - 1])
                                        case Some(b) => [b]
                                        case None => []
  }

  lemma {:induction false} FilterMapAppend<A, B>(xs: seq<A>, ys: seq<A>, f: A -> Option<B>)
    ensures FilterMap(xs + ys, f) == FilterMap(xs, f) + FilterMap(ys, f)
    decreases |ys|
  {
    if |ys| == 0 {
      assert xs + ys == xs;
    } else {
      var n := |ys| - 1;
      assert (xs + ys)[..|xs + ys| - 1] == xs + ys[..n];
      FilterMapAppend(xs, ys[..n], f);
    }
  }

  lemma {:induction false} FilterMapNone<A, B>(xs: seq<A>, f: A -> Option<B>)
    requires forall i :: 0 <= i < |xs| ==> f(xs[i]).None?
    ensures FilterMap(xs, f) == []
    decreases |xs|
  {
    if |xs| > 0 {
      FilterMapNone(xs[..|xs| - 1], f);
    }
  }

  /** A map over sequences that maps nothing to nothing and takes the first
      element on its own, before the rest, takes two runs one after the
      other; `ok` says which elements it is defined on. */
  lemma {:induction false} FirstThenRest<T, U>(f: seq<T> -> seq<U>, ok: T -> bool, a: seq<T>, b: seq<T>)
    requires f([]) == []
    requires forall x: T, rest: seq<T> :: ok(x) && (forall y :: y in rest ==> ok(y)) ==> f([x] + rest) == f([x]) + f(rest)
    requires forall y :: y in a ==> ok(y)
    requires forall y :: y in b ==> ok(y)
    ensures f(a + b) == f(a) + f(b)
    decreases |a|
  {
    if |a| == 0 {
      assert a + b == b;
    } else {
      assert a + b == [a[0]] + (a[1..] + b);
      assert a == [a[0]] + a[1..];
      assert a[0] in a;
      FirstThenRest(f, ok, a[1..], b);
      assert f([a[0]] + (a[1..] + b)) == f([a[0]]) + f(a[1..] + b);
      assert f([a[0]] + a[1..]) == f([a[0]]) + f(a[1..]);
    }
  }

  /** The sequences of `xss` one after the other. */
  function Flatten<T>(xss: seq<seq<T>>): seq<T>
    decreases |xss|
  {
    if |xss| == 0 then [] else Flatten(xss[..|xss| - 1]) + xss[|xss| - 1]
  }

  /** `k` copies of `block`, one after the other. */
  function Repeat<T>(block: seq<T>, k: nat): seq<T>
    decreases k
  {
    if k == 0 then [] else block + Repeat(block, k - 1)
  }

  /** One more copy can go at either end. */
  lemma {:induction false} RepeatSnoc<T>(block: seq<T>, k: nat)
    ensures Repeat(block, k) + block == Repeat(block, k + 1)
    decreases k
  {
    if k > 0 {
      RepeatSnoc(block, k - 1);
      assert Repeat(block, k) + block == block + (Repeat(block, k - 1) + block);
    }
  }

}
