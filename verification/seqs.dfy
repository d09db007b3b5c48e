/** Order-preserving sequence combinators used by the model: the counterparts
    of `Array.prototype.map` / `forEach` and `Array.prototype.filter`. */
module Seqs {

  /** Applies `f` to every element, keeping length and order. */
  function Map<A, B>(f: A -> B, xs: seq<A>): (r: seq<B>)
    ensures |r| == |xs|
    ensures forall i :: 0 <= i < |xs| ==> r[i] == f(xs[i])
  {
    if xs == [] then [] else [f(xs[0])] + Map(f, xs[1..])
  }

  /** Keeps exactly the elements satisfying `p`, in their original order. */
  function Filter<T(!new)>(p: T -> bool, xs: seq<T>): (r: seq<T>)
    ensures |r| <= |xs|
    ensures forall x :: x in r <==> x in xs && p(x)
  {
    if xs == [] then []
    else
      assert xs == [xs[0]] + xs[1..];
      (if p(xs[0]) then [xs[0]] else []) + Filter(p, xs[1..])
  }

  /** Mapping a sequence with a given first element. */
  lemma MapCons<A, B>(f: A -> B, x: A, xs: seq<A>)
    ensures Map(f, [x] + xs) == [f(x)] + Map(f, xs)
  {
    assert ([x] + xs)[1..] == xs;
  }

  /** Appending `x` to `head` and then `tail` is appending the sequence that
      starts with `x` and continues with `tail`. */
  lemma AppendShift<T>(head: seq<T>, x: T, tail: seq<T>, whole: seq<T>)
    requires whole == [x] + tail
    ensures (head + [x]) + tail == head + whole
  {
  }

  /** Mapping with `f` and then `g` is mapping with `h` when `h` is `g`
      after `f` on every element. */
  lemma MapCompose<A, B, C>(g: B -> C, f: A -> B, h: A -> C, xs: seq<A>)
    requires forall i :: 0 <= i < |xs| ==> g(f(xs[i])) == h(xs[i])
    ensures Map(g, Map(f, xs)) == Map(h, xs)
  {
    assert forall i :: 0 <= i < |xs| ==> Map(g, Map(f, xs))[i] == Map(h, xs)[i];
  }

  /** Mapping distributes over concatenation. */
  lemma {:induction false} MapConcat<A, B>(f: A -> B, a: seq<A>, b: seq<A>)
    ensures Map(f, a + b) == Map(f, a) + Map(f, b)
  {
    if a == [] {
      assert a + b == b;
    } else {
      assert (a + b)[1..] == a[1..] + b;
      MapConcat(f, a[1..], b);
    }
  }

  /** Filtering distributes over concatenation: the kept elements of a
      prefix come before the kept elements of the suffix. */
  lemma {:induction false} FilterConcat<T(!new)>(p: T -> bool, a: seq<T>, b: seq<T>)
    ensures Filter(p, a + b) == Filter(p, a) + Filter(p, b)
  {
    if a == [] {
      assert a + b == b;
    } else {
      assert (a + b)[1..] == a[1..] + b;
      FilterConcat(p, a[1..], b);
    }
  }
}
