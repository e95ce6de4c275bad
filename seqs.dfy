/** A loop that appends a result for some of the items it visits, and skips the others
    (`for x in xs: ... if not ok: continue ... out.append(y)`). */
module Seqs {
  import opened Wrappers

  /** The results of the items `f` keeps, in the order of the items. Written from the end so that
      a loop over `xs[..i]` extends it by one step. */
  function FilterMap<A, B>(xs: seq<A>, f: A -> Option<B>): seq<B> {
    if xs == [] then []
    else
      var init := FilterMap(xs[..|xs| - 1], f);
      match f(xs[|xs| - 1])
      case Some(y) => init + [y]
      case None => init
  }

  /** The indices of the items `f` keeps, in increasing order. */
  function Kept<A, B>(xs: seq<A>, f: A -> Option<B>): (r: seq<nat>)
    ensures forall k | 0 <= k < |r| :: r[k] < |xs| && f(xs[r[k]]).Some?
    ensures forall k, l | 0 <= k < l < |r| :: r[k] < r[l]
    ensures forall i | 0 <= i < |xs| && f(xs[i]).Some? :: i in r
  {
    if xs == [] then []
    else
      var init := Kept(xs[..|xs| - 1], f);
      assert forall i | 0 <= i < |xs| - 1 :: xs[..|xs| - 1][i] == xs[i];
      if f(xs[|xs| - 1]).Some? then init + [|xs| - 1] else init
  }

  /** Exactly one result per kept item, in item order: the k-th result is the result of the
      k-th kept item. */
  lemma {:induction false} FilterMapKept<A, B>(xs: seq<A>, f: A -> Option<B>)
    ensures |FilterMap(xs, f)| == |Kept(xs, f)|
    ensures forall k | 0 <= k < |Kept(xs, f)| :: FilterMap(xs, f)[k] == f(xs[Kept(xs, f)[k]]).value
  {
    if xs != [] {
      var init := xs[..|xs| - 1];
      FilterMapKept(init, f);
      assert forall i | 0 <= i < |init| :: init[i] == xs[i];
    }
  }

  /** One more step of the loop. */
  lemma FilterMapSnoc<A, B>(xs: seq<A>, i: nat, f: A -> Option<B>)
    requires i < |xs|
    ensures FilterMap(xs[..i + 1], f) ==
              match f(xs[i]) case Some(y) => FilterMap(xs[..i], f) + [y] case None => FilterMap(xs[..i], f)
  {
    assert xs[..i + 1][..i] == xs[..i];
  }
}
