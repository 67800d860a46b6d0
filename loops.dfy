/** What a loop that appends a segment per position builds, and the two
    shapes of such loops that the collation uses: one item per position,
    and an item for some positions only. */
module Loops {
  import opened Wrappers

  /** The segments of the positions `lo <= p < n`, in order. */
  function ConcatenationFrom<T>(seg: nat -> seq<T>, lo: nat, n: nat): seq<T> {
    if n <= lo then [] else ConcatenationFrom(seg, lo, n - 1) + seg(n - 1)
  }

  /** A loop that appends one item per position builds one item per
      position, in order. */
  lemma {:induction false} SingletonsAt<T>(f: nat -> seq<T>, n: nat, j: nat)
    requires forall p: nat :: p < n ==> |f(p)| == 1
    ensures |ConcatenationFrom(f, 0, n)| == n
    ensures j < n ==> ConcatenationFrom(f, 0, n)[j] == f(j)[0]
  {
    if n > 0 {
      SingletonsAt(f, n - 1, j);
    }
  }

  /** The segment of a loop that appends the item of a position when there
      is one. */
  function Picked<T>(o: nat -> Option<T>): nat -> seq<T> {
    (p: nat) => if o(p).Some? then [o(p).value] else []
  }

  /** The segment of a loop that lists the positions that have an item. */
  function Indices<T>(o: nat -> Option<T>): nat -> seq<nat> {
    (p: nat) => if o(p).Some? then [p] else []
  }

  /** The positions below `k` that have an item. */
  function ListedUpTo<U>(q: nat -> Option<U>, k: nat): seq<nat> {
    ConcatenationFrom(Indices(q), 0, k)
  }

  /** The positions listed are below `k`, have an item, and come in
      increasing order. */
  lemma {:induction false} ListedIncrease<U>(q: nat -> Option<U>, k: nat)
    ensures forall t :: 0 <= t < |ListedUpTo(q, k)| ==> ListedUpTo(q, k)[t] < k && q(ListedUpTo(q, k)[t]).Some?
    ensures forall t, u :: 0 <= t < u < |ListedUpTo(q, k)| ==> ListedUpTo(q, k)[t] < ListedUpTo(q, k)[u]
  {
    if k > 0 {
      ListedIncrease(q, k - 1);
      var prev := ListedUpTo(q, k - 1);
      assert ListedUpTo(q, k) == prev + Indices(q)(k - 1);
      assert forall t :: 0 <= t < |prev| ==> ListedUpTo(q, k)[t] == prev[t];
    }
  }

  /** A position below `k` is listed exactly when it has an item; when all
      have one, all `k` are listed. */
  lemma {:induction false} ListedMembers<U>(q: nat -> Option<U>, k: nat)
    ensures forall i :: 0 <= i < k ==> (i in ListedUpTo(q, k) <==> q(i).Some?)
    ensures (forall i :: 0 <= i < k ==> q(i).Some?) ==> |ListedUpTo(q, k)| == k
  {
    if k > 0 {
      ListedMembers(q, k - 1);
      ListedIncrease(q, k - 1);
    }
  }

  /** A loop that skips some positions appends the item of each position
      that has one, in order of position; `q` says which positions have one
      without saying what. */
  lemma {:induction false} PickedAt<T, U>(o: nat -> Option<T>, q: nat -> Option<U>, k: nat)
    requires forall p :: o(p).Some? <==> q(p).Some?
    ensures |ConcatenationFrom(Picked(o), 0, k)| == |ListedUpTo(q, k)|
    ensures forall t :: 0 <= t < |ListedUpTo(q, k)| ==>
              o(ListedUpTo(q, k)[t]).Some? && ConcatenationFrom(Picked(o), 0, k)[t] == o(ListedUpTo(q, k)[t]).value
  {
    if k > 0 {
      PickedAt(o, q, k - 1);
      var prev, ps := ListedUpTo(q, k - 1), ConcatenationFrom(Picked(o), 0, k - 1);
      assert ListedUpTo(q, k) == prev + Indices(q)(k - 1);
      assert ConcatenationFrom(Picked(o), 0, k) == ps + Picked(o)(k - 1);
      assert forall t :: 0 <= t < |prev| ==> ListedUpTo(q, k)[t] == prev[t] && ConcatenationFrom(Picked(o), 0, k)[t] == ps[t];
    }
  }
}
