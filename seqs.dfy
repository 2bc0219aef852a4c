/** Generic sequence helpers standing in for `Array.prototype.map` and
    `Array.prototype.reverse`. */
module Seqs {
  /** `xs.map(f)`. */
  function Map<A, B>(f: A -> B, xs: seq<A>): (r: seq<B>)
    ensures |r| == |xs|
    ensures forall i :: 0 <= i < |xs| ==> r[i] == f(xs[i])
  {
    if xs == [] then [] else [f(xs[0])] + Map(f, xs[1..])
  }

  /** Mapping a concatenation concatenates the mapped parts. */
  lemma {:induction false} MapAppend<A, B>(f: A -> B, xs: seq<A>, ys: seq<A>)
    ensures Map(f, xs + ys) == Map(f, xs) + Map(f, ys)
  {
    var zs := xs + ys;
    var m, l, r := Map(f, zs), Map(f, xs), Map(f, ys);
    assert |m| == |l + r|;
    assert forall i :: 0 <= i < |xs| ==> zs[i] == xs[i];
    assert forall i :: |xs| <= i < |zs| ==> zs[i] == ys[i - |xs|];
  }

  /** `xs` back to front: element `i` of the result is element `|xs| - 1 - i`. */
  function Reversed<A>(xs: seq<A>): (r: seq<A>)
    ensures |r| == |xs|
    ensures forall i :: 0 <= i < |xs| ==> r[i] == xs[|xs| - 1 - i]
  {
    if xs == [] then [] else Reversed(xs[1..]) + [xs[0]]
  }

  /** Reversing twice gives the original back. */
  lemma ReversedTwice<A>(xs: seq<A>)
    ensures Reversed(Reversed(xs)) == xs
  {
  }

  /** Reversing keeps the elements and their multiplicities. */
  lemma {:induction false} ReversedPermutes<A>(xs: seq<A>)
    ensures multiset(Reversed(xs)) == multiset(xs)
  {
    if xs != [] {
      ReversedPermutes(xs[1..]);
      assert xs == [xs[0]] + xs[1..];
    }
  }
}
