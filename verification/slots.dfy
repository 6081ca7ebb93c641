/**
 * The scalar type `TYPE` of the reduction buffers, seen only through what the
 * order-statistic reductions do with it: compare with `<`, copy, and hold the
 * constant `PLUS_INFINITY<TYPE>::value`. Finite values are integers; an inner
 * index `j` stored into a slot becomes `Fin(j)`.
 */
module Slots {
  datatype Val = Fin(x: int) | PosInf

  /** A (value, index) pair of slots kept together by min+argmin and arg-k-min. */
  datatype Entry = Entry(value: Val, index: Val)

  /** The identity pair both reductions start from: value +infinity, index 0. */
  const Unset := Entry(PosInf, Fin(0))

  /** The strict comparison `a < b` of the source. */
  predicate Less(a: Val, b: Val) {
    match (a, b)
    case (Fin(p), Fin(q)) => p < q
    case (Fin(_), PosInf) => true
    case (PosInf, _) => false
  }

  /** `a <= b`, that is, `!(b < a)`. */
  predicate Le(a: Val, b: Val) {
    !Less(b, a)
  }

  lemma LessIsStrictTotalOrder(a: Val, b: Val, c: Val)
    ensures !Less(a, a)
    ensures Less(a, b) && Less(b, c) ==> Less(a, c)
    ensures a == b || Less(a, b) || Less(b, a)
    ensures Less(a, b) ==> !Less(b, a)
  {
  }

  /** Formula outputs of width d, one per inner index j = 0, 1, .... */
  ghost predicate Rows(vs: seq<seq<Val>>, d: nat) {
    forall t :: 0 <= t < |vs| ==> |vs[t]| == d
  }

  /** Channel k of the formula outputs `vs`: the values a reduction folds into channel k. */
  ghost function Column(vs: seq<seq<Val>>, d: nat, k: nat): (c: seq<Val>)
    requires Rows(vs, d) && k < d
    ensures |c| == |vs| && forall t :: 0 <= t < |vs| ==> c[t] == vs[t][k]
  {
    seq(|vs|, t requires 0 <= t < |vs| => vs[t][k])
  }
}
