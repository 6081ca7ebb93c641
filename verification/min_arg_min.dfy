/**
 * The min+argmin reduction policy `MinArgMinReduction<F, tagI>`.
 * With D = F::DIM, the accumulator `tmp` has width 2*D: slot k holds the running
 * minimum of channel k and slot D+k the inner index at which it was found.
 */
module MinArgMin {
  import opened Slots

  /** `DIM`: the output width, twice the formula's width. */
  function OutDim(d: nat): nat { 2 * d }

  /** `DIMRED`: the accumulator width, equal to the output width. */
  function AccDim(d: nat): nat { OutDim(d) }

  // ---------------------------------------------------------------------------
  // One channel
  // ---------------------------------------------------------------------------

  /** Folding the formula value `x` found at inner index `j` into one channel. */
  function ChanStep(e: Entry, x: Val, j: int): Entry {
    if Less(x, e.value) then Entry(x, Fin(j)) else e
  }

  /** Folding another channel `o` into `e`: `o` wins only when strictly smaller. */
  function ChanMerge(e: Entry, o: Entry): (r: Entry)
    ensures Le(r.value, e.value) && Le(r.value, o.value)
    ensures r == e || r == o
    ensures !Less(o.value, e.value) ==> r == e
  {
    if Less(o.value, e.value) then o else e
  }

  /** Folding the values `vs`, found at inner indices j, j+1, ..., into one channel. */
  function ChanFold(e: Entry, vs: seq<Val>, j: int): Entry
    decreases |vs|
  {
    if vs == [] then e else ChanFold(ChanStep(e, vs[0], j), vs[1..], j + 1)
  }

  /**
   * What folding computes: the result is no larger than the start and than every value;
   * either the start survives, or the result is strictly below the start and carries the
   * FIRST inner index at which its value occurs.
   */
  lemma {:induction false} ChanFoldSpec(e: Entry, vs: seq<Val>, j: int)
    ensures var r := ChanFold(e, vs, j);
      && Le(r.value, e.value)
      && (forall t :: 0 <= t < |vs| ==> Le(r.value, vs[t]))
      && (r == e ||
          (Less(r.value, e.value) && r.index.Fin? && j <= r.index.x < j + |vs|
           && vs[r.index.x - j] == r.value
           && forall t :: 0 <= t < r.index.x - j ==> vs[t] != r.value))
    decreases |vs|
  {
    if vs != [] {
      var e' := ChanStep(e, vs[0], j);
      ChanFoldSpec(e', vs[1..], j + 1);
      var r := ChanFold(e, vs, j);
      assert r == ChanFold(e', vs[1..], j + 1);
      forall t | 0 <= t < |vs| ensures Le(r.value, vs[t]) {
        if t > 0 { assert vs[t] == vs[1..][t - 1]; }
      }
      if r != e && r != e' {
        var i := r.index.x - (j + 1);
        assert vs[1..][i] == r.value;
        forall t | 0 <= t < i + 1 ensures vs[t] != r.value {
          if t > 0 { assert vs[t] == vs[1..][t - 1]; }
        }
      }
    }
  }

  /**
   * After folding v[0..n) from the identity, the channel holds the minimum of +infinity
   * and all of v, and the lowest index attaining it (index 0 when nothing is below +infinity).
   */
  lemma FoldFromUnsetIsMinArgMin(vs: seq<Val>)
    ensures var r := ChanFold(Unset, vs, 0);
      && (forall t :: 0 <= t < |vs| ==> Le(r.value, vs[t]))
      && (r.value == PosInf ==> r.index == Fin(0))
      && (r.value != PosInf ==>
            r.index.Fin? && 0 <= r.index.x < |vs| && vs[r.index.x] == r.value
            && forall t :: 0 <= t < r.index.x ==> vs[t] != r.value)
  {
    ChanFoldSpec(Unset, vs, 0);
  }

  /** Folding values into a channel is merging it with a fresh fold of the same values. */
  lemma {:induction false} ChanFoldIsMerge(e: Entry, vs: seq<Val>, j: int)
    ensures ChanFold(e, vs, j) == ChanMerge(e, ChanFold(Unset, vs, j))
    decreases |vs|
  {
    if vs != [] {
      ChanFoldIsMerge(ChanStep(e, vs[0], j), vs[1..], j + 1);
      ChanFoldIsMerge(ChanStep(Unset, vs[0], j), vs[1..], j + 1);
    }
  }

  /** Folding a concatenation is folding the second part into the result of the first. */
  lemma {:induction false} ChanFoldAppend(e: Entry, vs: seq<Val>, ws: seq<Val>, j: int)
    ensures ChanFold(e, vs + ws, j) == ChanFold(ChanFold(e, vs, j), ws, j + |vs|)
    decreases |vs|
  {
    if vs != [] {
      assert (vs + ws)[0] == vs[0] && (vs + ws)[1..] == vs[1..] + ws;
      ChanFoldAppend(ChanStep(e, vs[0], j), vs[1..], ws, j + 1);
    } else {
      assert vs + ws == ws;
    }
  }

  /**
   * Two chunks of the inner range, reduced separately from the identity, combine with
   * `ReducePair` (earlier chunk as `tmp`) into the reduction of the whole range.
   */
  lemma ChanChunksCombine(vs: seq<Val>, ws: seq<Val>)
    ensures ChanFold(Unset, vs + ws, 0) == ChanMerge(ChanFold(Unset, vs, 0), ChanFold(Unset, ws, |vs|))
  {
    ChanFoldAppend(Unset, vs, ws, 0);
    ChanFoldIsMerge(ChanFold(Unset, vs, 0), ws, |vs|);
  }

  /** Merging is associative, and commutative on the value slot. */
  lemma ChanMergeLaws(a: Entry, b: Entry, c: Entry)
    ensures ChanMerge(ChanMerge(a, b), c) == ChanMerge(a, ChanMerge(b, c))
    ensures ChanMerge(a, b).value == ChanMerge(b, a).value
    ensures a.value != b.value ==> ChanMerge(a, b) == ChanMerge(b, a)
  {
  }

  /** On a tie the index of the left operand is kept, so merging is not commutative. */
  lemma ChanMergeNotCommutative()
    ensures ChanMerge(Entry(Fin(0), Fin(1)), Entry(Fin(0), Fin(2))).index == Fin(1)
    ensures ChanMerge(Entry(Fin(0), Fin(2)), Entry(Fin(0), Fin(1))).index == Fin(2)
  {
  }

  // ---------------------------------------------------------------------------
  // The whole accumulator
  // ---------------------------------------------------------------------------

  /** Channel k of an accumulator of width 2*d. */
  function Channel(acc: seq<Val>, d: nat, k: nat): Entry
    requires |acc| == AccDim(d) && k < d
  {
    Entry(acc[k], acc[d + k])
  }

  /** Two accumulators with the same channels are the same. */
  lemma ChannelsDetermine(a: seq<Val>, b: seq<Val>, d: nat)
    requires |a| == |b| == AccDim(d)
    requires forall k :: 0 <= k < d ==> Channel(a, d, k) == Channel(b, d, k)
    ensures a == b
  {
    forall i | 0 <= i < |a| ensures a[i] == b[i] {
      if i < d { assert Channel(a, d, i) == Channel(b, d, i); }
      else { assert Channel(a, d, i - d) == Channel(b, d, i - d); }
    }
  }

  /** The accumulator after `InitializeReduction`. */
  function Identity(d: nat): (r: seq<Val>)
    ensures |r| == AccDim(d)
    ensures forall k :: 0 <= k < d ==> Channel(r, d, k) == Unset
  {
    seq(2 * d, i requires 0 <= i < 2 * d => if i < d then PosInf else Fin(0))
  }

  /** The accumulator after `ReducePairShort(tmp, xi, j)`: every channel folded independently. */
  function Step(acc: seq<Val>, d: nat, xi: seq<Val>, j: int): (r: seq<Val>)
    requires |acc| == AccDim(d) && |xi| == d
    ensures |r| == AccDim(d)
    ensures forall k :: 0 <= k < d ==> Channel(r, d, k) == ChanStep(Channel(acc, d, k), xi[k], j)
  {
    seq(2 * d, i requires 0 <= i < 2 * d => if i < d then ChanStep(Channel(acc, d, i), xi[i], j).value
                    else ChanStep(Channel(acc, d, i - d), xi[i - d], j).index)
  }

  /** The accumulator after `ReducePair(tmp, other)`: every channel merged independently. */
  function Merge(acc: seq<Val>, d: nat, other: seq<Val>): (r: seq<Val>)
    requires |acc| == |other| == AccDim(d)
    ensures |r| == AccDim(d)
    ensures forall k :: 0 <= k < d ==> Channel(r, d, k) == ChanMerge(Channel(acc, d, k), Channel(other, d, k))
  {
    seq(2 * d, i requires 0 <= i < 2 * d => if i < d then ChanMerge(Channel(acc, d, i), Channel(other, d, i)).value
                    else ChanMerge(Channel(acc, d, i - d), Channel(other, d, i - d)).index)
  }

  /** The sequential fold of `ReducePairShort` over rows vs, found at inner indices j, j+1, .... */
  ghost function Fold(acc: seq<Val>, d: nat, vs: seq<seq<Val>>, j: int): (r: seq<Val>)
    requires |acc| == AccDim(d) && Rows(vs, d)
    ensures |r| == AccDim(d)
    decreases |vs|
  {
    if vs == [] then acc else Fold(Step(acc, d, vs[0], j), d, vs[1..], j + 1)
  }

  /** Folding whole accumulators folds each channel on its own column. */
  lemma {:induction false} FoldChannels(acc: seq<Val>, d: nat, vs: seq<seq<Val>>, j: int, k: nat)
    requires |acc| == AccDim(d) && Rows(vs, d) && k < d
    ensures Channel(Fold(acc, d, vs, j), d, k) == ChanFold(Channel(acc, d, k), Column(vs, d, k), j)
    decreases |vs|
  {
    if vs != [] {
      FoldChannels(Step(acc, d, vs[0], j), d, vs[1..], j + 1, k);
      assert Column(vs[1..], d, k) == Column(vs, d, k)[1..];
    }
  }

  /**
   * Reducing the inner range in two chunks and combining them with `ReducePair` gives the
   * same accumulator as reducing it in one sweep.
   */
  lemma FoldChunksCombine(d: nat, vs: seq<seq<Val>>, ws: seq<seq<Val>>)
    requires Rows(vs, d) && Rows(ws, d)
    ensures Rows(vs + ws, d)
    ensures Fold(Identity(d), d, vs + ws, 0)
         == Merge(Fold(Identity(d), d, vs, 0), d, Fold(Identity(d), d, ws, |vs|))
  {
    var whole := Fold(Identity(d), d, vs + ws, 0);
    var merged := Merge(Fold(Identity(d), d, vs, 0), d, Fold(Identity(d), d, ws, |vs|));
    forall k | 0 <= k < d ensures Channel(whole, d, k) == Channel(merged, d, k) {
      FoldChannels(Identity(d), d, vs + ws, 0, k);
      FoldChannels(Identity(d), d, vs, 0, k);
      FoldChannels(Identity(d), d, ws, |vs|, k);
      assert Column(vs + ws, d, k) == Column(vs, d, k) + Column(ws, d, k);
      ChanChunksCombine(Column(vs, d, k), Column(ws, d, k));
    }
    ChannelsDetermine(whole, merged, d);
  }

  /**
   * After folding rows v[0..n) from the identity, value slot k holds the minimum of
   * +infinity and every v[j][k], and index slot D+k the lowest j attaining it
   * (0 when no value is below +infinity).
   */
  lemma FoldIsMinArgMin(d: nat, vs: seq<seq<Val>>, k: nat)
    requires Rows(vs, d) && k < d
    ensures var r := Fold(Identity(d), d, vs, 0);
      && (forall t :: 0 <= t < |vs| ==> Le(r[k], vs[t][k]))
      && (r[k] == PosInf ==> r[d + k] == Fin(0))
      && (r[k] != PosInf ==>
            r[d + k].Fin? && 0 <= r[d + k].x < |vs| && vs[r[d + k].x][k] == r[k]
            && forall t :: 0 <= t < r[d + k].x ==> vs[t][k] != r[k])
  {
    FoldChannels(Identity(d), d, vs, 0, k);
    FoldFromUnsetIsMinArgMin(Column(vs, d, k));
  }

  // ---------------------------------------------------------------------------
  // The four operations, in place
  // ---------------------------------------------------------------------------

  /** `InitializeReduction`: +infinity in the value slots, 0 in the index slots. */
  method InitializeReduction(tmp: array<Val>, d: nat)
    requires tmp.Length == AccDim(d)
    modifies tmp
    ensures tmp[..] == Identity(d)
  {
    for k := 0 to d
      invariant forall i :: 0 <= i < k ==> tmp[i] == PosInf
    {
      tmp[k] := PosInf;
    }
    for k := d to OutDim(d)
      invariant forall i :: 0 <= i < d ==> tmp[i] == PosInf
      invariant forall i :: d <= i < k ==> tmp[i] == Fin(0)
    {
      tmp[k] := Fin(0);
    }
  }

  /** `ReducePairShort(tmp, xi, j)`: fold the formula output `xi` found at inner index `j`. */
  method ReducePairShort(tmp: array<Val>, d: nat, xi: seq<Val>, j: int)
    requires tmp.Length == AccDim(d) && |xi| == d
    modifies tmp
    ensures tmp[..] == Step(old(tmp[..]), d, xi, j)
  {
    ghost var acc := tmp[..];
    for k := 0 to d
      invariant forall i :: 0 <= i < k ==>
        Entry(tmp[i], tmp[d + i]) == ChanStep(Channel(acc, d, i), xi[i], j)
      invariant forall i :: k <= i < d ==> tmp[i] == acc[i]
      invariant forall i :: d + k <= i < OutDim(d) ==> tmp[i] == acc[i]
    {
      if Less(xi[k], tmp[k]) {
        tmp[k] := xi[k];
        tmp[d + k] := Fin(j);
      }
    }
    ChannelsDetermine(tmp[..], Step(acc, d, xi, j), d);
  }

  /** `ReducePair(tmp, other)`: merge another accumulator into `tmp`. */
  method ReducePair(tmp: array<Val>, d: nat, other: seq<Val>)
    requires tmp.Length == |other| == AccDim(d)
    modifies tmp
    ensures tmp[..] == Merge(old(tmp[..]), d, other)
  {
    ghost var acc := tmp[..];
    for k := 0 to d
      invariant forall i :: 0 <= i < k ==>
        Entry(tmp[i], tmp[d + i]) == ChanMerge(Channel(acc, d, i), Channel(other, d, i))
      invariant forall i :: k <= i < d ==> tmp[i] == acc[i]
      invariant forall i :: d + k <= i < OutDim(d) ==> tmp[i] == acc[i]
    {
      if Less(other[k], tmp[k]) {
        tmp[k] := other[k];
        tmp[d + k] := other[d + k];
      }
    }
    ChannelsDetermine(tmp[..], Merge(acc, d, other), d);
  }

  /** `FinalizeOutput(tmp, out)`: the output row is the accumulator, value slots first. */
  method FinalizeOutput(tmp: seq<Val>, out: array<Val>, d: nat)
    requires |tmp| == out.Length == OutDim(d)
    modifies out
    ensures out[..] == tmp
  {
    for k := 0 to OutDim(d)
      invariant forall i :: 0 <= i < k ==> out[i] == tmp[i]
    {
      out[k] := tmp[k];
    }
  }
}
