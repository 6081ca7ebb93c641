/**
 * The arg-k-min reduction policy `ArgKMinReduction<F, K, tagI>`.
 * With D = F::DIM the accumulator `tmp` has width 2*K*D. Slot s (0 <= s < K) of channel
 * k (0 <= k < D) keeps its value at position k + 2*D*s and its inner index D positions
 * further on; the output row keeps only the indices, slot s of channel k at k + D*s.
 */
module ArgKMin {
  import opened Slots
  import opened ArgKMinList
  import Variables

  /** `DIM`: the output width, K indices per channel. */
  function OutDim(d: nat, K: nat): nat { K * d }

  /** `DIMRED`: the accumulator width, a value and an index per output slot. */
  function AccDim(d: nat, K: nat): nat { 2 * OutDim(d, K) }

  // ---------------------------------------------------------------------------
  // Layout arithmetic
  // ---------------------------------------------------------------------------

  /** m * q as repeated addition, so that the layout proofs stay linear. */
  function Times(m: nat, q: nat): nat {
    if q == 0 then 0 else Times(m, q - 1) + m
  }

  lemma {:induction false} TimesIsMul(m: nat, q: nat)
    ensures Times(m, q) == m * q
  {
    if q > 0 {
      TimesIsMul(m, q - 1);
      assert m * q == m * (q - 1) + m;
    }
  }

  lemma {:induction false} TimesMonotone(m: nat, q: nat, q': nat)
    requires q < q'
    ensures Times(m, q) + m <= Times(m, q')
    decreases q'
  {
    if q + 1 < q' {
      TimesMonotone(m, q, q' - 1);
    }
  }

  /** The widths, as sums: D*K output slots, 2*D*K accumulator slots. */
  lemma DimsAsTimes(d: nat, K: nat)
    ensures OutDim(d, K) == Times(d, K) && AccDim(d, K) == Times(2 * d, K)
    ensures K * 2 * d == Times(2 * d, K)
  {
    TimesIsMul(d, K);
    TimesIsMul(2 * d, K);
  }

  /** The quotient of i by m, by repeated subtraction. */
  function Quot(m: nat, i: nat): nat
    requires m > 0
    decreases i
  {
    if i < m then 0 else Quot(m, i - m) + 1
  }

  /** The remainder of i by m, by repeated subtraction. */
  function Rem(m: nat, i: nat): nat
    requires m > 0
    decreases i
  {
    if i < m then i else Rem(m, i - m)
  }

  lemma {:induction false} QuotRem(m: nat, i: nat)
    requires m > 0
    ensures Rem(m, i) < m && i == Times(m, Quot(m, i)) + Rem(m, i)
    decreases i
  {
    if i >= m {
      QuotRem(m, i - m);
    }
  }

  /** Quotient and remainder are unique. */
  lemma DivUnique(m: nat, q: nat, r: nat, q': nat, r': nat)
    requires m > 0 && r < m && r' < m && Times(m, q) + r == Times(m, q') + r'
    ensures q == q' && r == r'
  {
    if q < q' {
      TimesMonotone(m, q, q');
    } else if q > q' {
      TimesMonotone(m, q', q);
    }
  }

  lemma QuotRemOf(m: nat, q: nat, r: nat)
    requires m > 0 && r < m
    ensures Quot(m, Times(m, q) + r) == q && Rem(m, Times(m, q) + r) == r
  {
    QuotRem(m, Times(m, q) + r);
    DivUnique(m, q, r, Quot(m, Times(m, q) + r), Rem(m, Times(m, q) + r));
  }

  /** `Rem` is the remainder `%`. */
  lemma RemIsMod(m: nat, i: nat)
    requires m > 0
    ensures Rem(m, i) == i % m
  {
    var q, r := i / m, i % m;
    assert i == m * q + r && r < m;
    TimesIsMul(m, q);
    QuotRem(m, i);
    DivUnique(m, Quot(m, i), Rem(m, i), q, r);
  }

  // ---------------------------------------------------------------------------
  // Layout of the accumulator and of the output row
  // ---------------------------------------------------------------------------

  /**
   * Position of slot s of channel k: its value half (h = 0) at k + 2*D*s, or its
   * index half (h = 1) at k + D + 2*D*s.
   */
  function Pos(d: nat, k: nat, s: nat, h: nat): nat {
    k + (if h == 0 then 0 else d) + Times(2 * d, s)
  }

  /** The slot a position belongs to. */
  function SlotOf(d: nat, i: nat): nat
    requires d > 0
  {
    Quot(2 * d, i)
  }

  /** Whether a position holds a value (0) or an index (1). */
  function HalfOf(d: nat, i: nat): nat
    requires d > 0
  {
    if Rem(2 * d, i) < d then 0 else 1
  }

  /** The channel of a position: its residue modulo 2*D, less D in the index half. */
  function ChanOf(d: nat, i: nat): nat
    requires d > 0
  {
    if Rem(2 * d, i) < d then Rem(2 * d, i) else Rem(2 * d, i) - d
  }

  /** Every position of the accumulator is the position of one (channel, slot, half). */
  lemma SplitPos(d: nat, K: nat, i: nat)
    requires d > 0 && i < AccDim(d, K)
    ensures ChanOf(d, i) < d && HalfOf(d, i) < 2 && SlotOf(d, i) < K
    ensures Pos(d, ChanOf(d, i), SlotOf(d, i), HalfOf(d, i)) == i
  {
    QuotRem(2 * d, i);
    DimsAsTimes(d, K);
    if SlotOf(d, i) >= K {
      if SlotOf(d, i) > K { TimesMonotone(2 * d, K, SlotOf(d, i)); }
    }
  }

  /** ... and a (channel, slot, half) has a position inside the accumulator, which splits back. */
  lemma PosSplit(d: nat, K: nat, k: nat, s: nat, h: nat)
    requires k < d && s < K && h < 2
    ensures Pos(d, k, s, h) < AccDim(d, K)
    ensures SlotOf(d, Pos(d, k, s, h)) == s && HalfOf(d, Pos(d, k, s, h)) == h
    ensures ChanOf(d, Pos(d, k, s, h)) == k
  {
    TimesMonotone(2 * d, s, K);
    DimsAsTimes(d, K);
    QuotRemOf(2 * d, s, k + (if h == 0 then 0 else d));
  }

  /** Position of slot s of channel k in the output row: k + D*s. */
  function OutPos(d: nat, k: nat, s: nat): nat {
    k + Times(d, s)
  }

  lemma OutPosSplit(d: nat, K: nat, k: nat, s: nat)
    requires k < d && s < K
    ensures OutPos(d, k, s) < OutDim(d, K)
    ensures Rem(d, OutPos(d, k, s)) == k && Quot(d, OutPos(d, k, s)) == s
  {
    TimesMonotone(d, s, K);
    DimsAsTimes(d, K);
    QuotRemOf(d, s, k);
  }

  lemma SplitOutPos(d: nat, K: nat, p: nat)
    requires p < OutDim(d, K)
    ensures d > 0 && Rem(d, p) < d && Quot(d, p) < K && OutPos(d, Rem(d, p), Quot(d, p)) == p
  {
    DimsAsTimes(d, K);
    QuotRem(d, p);
    if Quot(d, p) > K {
      TimesMonotone(d, K, Quot(d, p));
    }
  }

  /** The loop bounds of the source in terms of slots. */
  lemma SlotBounds(d: nat, K: nat, k: nat, s: nat)
    requires k < d
    ensures Pos(d, k, s, 0) < K * 2 * d + k <==> s < K
    ensures K > 0 ==> (K - 1) * 2 * d + k == Pos(d, k, K - 1, 0)
    ensures K == 0 ==> (K - 1) * 2 * d + k < k
  {
    DimsAsTimes(d, K);
    if s < K { TimesMonotone(2 * d, s, K); }
    if s > K { TimesMonotone(2 * d, K, s); }
    if K > 0 {
      TimesIsMul(2 * d, K - 1);
      assert (K - 1) * 2 * d == 2 * d * (K - 1);
    }
  }

  // ---------------------------------------------------------------------------
  // Channels of an accumulator
  // ---------------------------------------------------------------------------

  /** The K (value, index) slots of channel k, in slot order. */
  ghost function Chan(a: seq<Val>, d: nat, K: nat, k: nat): (c: seq<Entry>)
    requires |a| == AccDim(d, K) && k < d
    ensures |c| == K
  {
    seq(K, s requires 0 <= s < K =>
      PosSplit(d, K, k, s, 0); PosSplit(d, K, k, s, 1);
      Entry(a[Pos(d, k, s, 0)], a[Pos(d, k, s, 1)]))
  }

  lemma ChanAt(a: seq<Val>, d: nat, K: nat, k: nat, s: nat)
    requires |a| == AccDim(d, K) && k < d && s < K
    ensures Pos(d, k, s, 1) < |a|
    ensures Chan(a, d, K, k)[s] == Entry(a[Pos(d, k, s, 0)], a[Pos(d, k, s, 1)])
  {
    PosSplit(d, K, k, s, 1);
  }

  /** An accumulator is determined by its channels. */
  lemma ChansDetermine(a: seq<Val>, b: seq<Val>, d: nat, K: nat)
    requires |a| == |b| == AccDim(d, K)
    requires forall k :: 0 <= k < d ==> Chan(a, d, K, k) == Chan(b, d, K, k)
    ensures a == b
  {
    forall i | 0 <= i < |a| ensures a[i] == b[i] {
      SplitPos(d, K, i);
      var k, s := ChanOf(d, i), SlotOf(d, i);
      ChanAt(a, d, K, k, s);
      ChanAt(b, d, K, k, s);
      assert Chan(a, d, K, k)[s] == Chan(b, d, K, k)[s];
    }
  }

  /** Writing one slot of channel k changes that slot of channel k and nothing else. */
  lemma ChanUpdate(a: seq<Val>, d: nat, K: nat, k: nat, s: nat, e: Entry)
    requires |a| == AccDim(d, K) && k < d && s < K
    ensures Pos(d, k, s, 0) < Pos(d, k, s, 1) < |a|
    ensures var b := a[Pos(d, k, s, 0) := e.value][Pos(d, k, s, 1) := e.index];
      && Chan(b, d, K, k) == Chan(a, d, K, k)[s := e]
      && forall c :: 0 <= c < d && c != k ==> Chan(b, d, K, c) == Chan(a, d, K, c)
  {
    PosSplit(d, K, k, s, 0);
    PosSplit(d, K, k, s, 1);
    var b := a[Pos(d, k, s, 0) := e.value][Pos(d, k, s, 1) := e.index];
    forall t | 0 <= t < K ensures Chan(b, d, K, k)[t] == Chan(a, d, K, k)[s := e][t] {
      ChanAt(a, d, K, k, t);
      ChanAt(b, d, K, k, t);
      PosSplit(d, K, k, t, 0);
      PosSplit(d, K, k, t, 1);
    }
    forall c | 0 <= c < d && c != k ensures Chan(b, d, K, c) == Chan(a, d, K, c) {
      ChanFrame(a, b, d, K, k, c);
    }
  }

  /** Positions outside channel k are enough to fix every other channel. */
  lemma ChanFrame(a: seq<Val>, b: seq<Val>, d: nat, K: nat, k: nat, c: nat)
    requires |a| == |b| == AccDim(d, K) && k < d && c < d && c != k
    requires forall i :: 0 <= i < |a| && ChanOf(d, i) != k ==> b[i] == a[i]
    ensures Chan(b, d, K, c) == Chan(a, d, K, c)
  {
    forall s | 0 <= s < K ensures Chan(b, d, K, c)[s] == Chan(a, d, K, c)[s] {
      ChanAt(a, d, K, c, s);
      ChanAt(b, d, K, c, s);
      PosSplit(d, K, c, s, 0);
      PosSplit(d, K, c, s, 1);
    }
  }

  /**
   * Channel independence at the level of positions: when only channel k may differ, the
   * two arrays agree at every position not congruent to k or k+D modulo 2*D.
   */
  lemma OnlyChannelPositionsDiffer(a: seq<Val>, b: seq<Val>, d: nat, K: nat, k: nat)
    requires |a| == |b| == AccDim(d, K) && k < d
    requires forall c :: 0 <= c < d && c != k ==> Chan(b, d, K, c) == Chan(a, d, K, c)
    ensures forall i :: 0 <= i < |a| && i % (2 * d) != k && i % (2 * d) != k + d ==> b[i] == a[i]
  {
    forall i | 0 <= i < |a| && i % (2 * d) != k && i % (2 * d) != k + d ensures b[i] == a[i] {
      SplitPos(d, K, i);
      RemIsMod(2 * d, i);
      var c, t := ChanOf(d, i), SlotOf(d, i);
      ChanAt(a, d, K, c, t);
      ChanAt(b, d, K, c, t);
      assert Chan(b, d, K, c)[t] == Chan(a, d, K, c)[t];
    }
  }

  // ---------------------------------------------------------------------------
  // The four operations as functions of the accumulator
  // ---------------------------------------------------------------------------

  /** The accumulator after `InitializeReduction`. */
  ghost function Identity(d: nat, K: nat): (r: seq<Val>)
    ensures |r| == AccDim(d, K)
  {
    seq(AccDim(d, K), i requires 0 <= i < AccDim(d, K) =>
      SplitPos(d, K, i);
      if HalfOf(d, i) == 0 then PosInf else Fin(0))
  }

  /** Every channel of the identity accumulator holds K identity entries. */
  lemma IdentityChan(d: nat, K: nat, k: nat)
    requires k < d
    ensures Chan(Identity(d, K), d, K, k) == InitList(K)
  {
    forall s | 0 <= s < K ensures Chan(Identity(d, K), d, K, k)[s] == Unset {
      ChanAt(Identity(d, K), d, K, k, s);
      PosSplit(d, K, k, s, 0);
      PosSplit(d, K, k, s, 1);
    }
  }

  /** The accumulator after `ReducePairShort(tmp, xi, j)`. */
  ghost function Step(acc: seq<Val>, d: nat, K: nat, xi: seq<Val>, j: int): (r: seq<Val>)
    requires |acc| == AccDim(d, K) && |xi| == d
    ensures |r| == |acc|
  {
    seq(|acc|, i requires 0 <= i < |acc| =>
      SplitPos(d, K, i);
      var e := Insert(Chan(acc, d, K, ChanOf(d, i)), xi[ChanOf(d, i)], j)[SlotOf(d, i)];
      if HalfOf(d, i) == 0 then e.value else e.index)
  }

  /** `ReducePairShort` inserts xi[k] into channel k, for every channel independently. */
  lemma StepChan(acc: seq<Val>, d: nat, K: nat, xi: seq<Val>, j: int, k: nat)
    requires |acc| == AccDim(d, K) && |xi| == d && k < d
    ensures Chan(Step(acc, d, K, xi, j), d, K, k) == Insert(Chan(acc, d, K, k), xi[k], j)
  {
    var r := Step(acc, d, K, xi, j);
    forall s | 0 <= s < K ensures Chan(r, d, K, k)[s] == Insert(Chan(acc, d, K, k), xi[k], j)[s] {
      ChanAt(r, d, K, k, s);
      PosSplit(d, K, k, s, 0);
      PosSplit(d, K, k, s, 1);
    }
  }

  /** The output row written by `FinalizeOutput`: the index slots only. */
  ghost function Output(acc: seq<Val>, d: nat, K: nat): (r: seq<Val>)
    requires |acc| == AccDim(d, K)
    ensures |r| == OutDim(d, K)
  {
    seq(OutDim(d, K), p requires 0 <= p < OutDim(d, K) =>
      SplitOutPos(d, K, p);
      PosSplit(d, K, Rem(d, p), Quot(d, p), 1);
      acc[Pos(d, Rem(d, p), Quot(d, p), 1)])
  }

  /** Output slot k + D*s holds the index of slot s of channel k, so indices come in value order. */
  lemma OutputAt(acc: seq<Val>, d: nat, K: nat, k: nat, s: nat)
    requires |acc| == AccDim(d, K) && k < d && s < K
    ensures OutPos(d, k, s) < OutDim(d, K)
    ensures Output(acc, d, K)[OutPos(d, k, s)] == Chan(acc, d, K, k)[s].index
  {
    OutPosSplit(d, K, k, s);
    ChanAt(acc, d, K, k, s);
  }

  /** With nothing folded, every output index is 0. */
  lemma OutputOfIdentity(d: nat, K: nat)
    ensures Output(Identity(d, K), d, K) == seq(OutDim(d, K), _ => Fin(0))
  {
    forall p | 0 <= p < OutDim(d, K) ensures Output(Identity(d, K), d, K)[p] == Fin(0) {
      SplitOutPos(d, K, p);
      var k, s := Rem(d, p), Quot(d, p);
      OutputAt(Identity(d, K), d, K, k, s);
      IdentityChan(d, K, k);
    }
  }

  /** The K output slots of channel k, in slot order. */
  ghost function OutChan(o: seq<Val>, d: nat, K: nat, k: nat): (c: seq<Val>)
    requires |o| == OutDim(d, K) && k < d
    ensures |c| == K
  {
    seq(K, s requires 0 <= s < K => OutPosSplit(d, K, k, s); o[OutPos(d, k, s)])
  }

  /** The indices of a channel's entries, in slot order. */
  function Indices(l: seq<Entry>): (r: seq<Val>)
    ensures |r| == |l| && forall t :: 0 <= t < |l| ==> r[t] == l[t].index
  {
    seq(|l|, t requires 0 <= t < |l| => l[t].index)
  }

  /** An output row is determined by its channels. */
  lemma OutChansDetermine(a: seq<Val>, b: seq<Val>, d: nat, K: nat)
    requires |a| == |b| == OutDim(d, K)
    requires forall k :: 0 <= k < d ==> OutChan(a, d, K, k) == OutChan(b, d, K, k)
    ensures a == b
  {
    forall p | 0 <= p < |a| ensures a[p] == b[p] {
      SplitOutPos(d, K, p);
      assert OutChan(a, d, K, Rem(d, p))[Quot(d, p)] == OutChan(b, d, K, Rem(d, p))[Quot(d, p)];
    }
  }

  /** Writing one output slot of channel k changes that slot and nothing else. */
  lemma OutChanUpdate(o: seq<Val>, d: nat, K: nat, k: nat, s: nat, v: Val)
    requires |o| == OutDim(d, K) && k < d && s < K
    ensures OutPos(d, k, s) < |o|
    ensures var b := o[OutPos(d, k, s) := v];
      && OutChan(b, d, K, k) == OutChan(o, d, K, k)[s := v]
      && forall c :: 0 <= c < d && c != k ==> OutChan(b, d, K, c) == OutChan(o, d, K, c)
  {
    OutPosSplit(d, K, k, s);
    var b := o[OutPos(d, k, s) := v];
    forall c | 0 <= c < d ensures OutChan(b, d, K, c) == if c == k then OutChan(o, d, K, k)[s := v] else OutChan(o, d, K, c) {
      forall t | 0 <= t < K
        ensures OutChan(b, d, K, c)[t] == if (c, t) == (k, s) then v else OutChan(o, d, K, c)[t]
      {
        OutPosSplit(d, K, c, t);
      }
    }
  }

  /** Channel k of the output row holds the indices of channel k of the accumulator. */
  lemma OutputChan(acc: seq<Val>, d: nat, K: nat, k: nat)
    requires |acc| == AccDim(d, K) && k < d
    ensures OutChan(Output(acc, d, K), d, K, k) == Indices(Chan(acc, d, K, k))
  {
    forall s | 0 <= s < K ensures OutChan(Output(acc, d, K), d, K, k)[s] == Chan(acc, d, K, k)[s].index {
      OutputAt(acc, d, K, k, s);
    }
  }

  // ---------------------------------------------------------------------------
  // Folding a sequence of formula outputs
  // ---------------------------------------------------------------------------

  /** The sequential fold of `ReducePairShort` over rows vs, found at inner indices j, j+1, .... */
  ghost function Fold(acc: seq<Val>, d: nat, K: nat, vs: seq<seq<Val>>, j: int): (r: seq<Val>)
    requires |acc| == AccDim(d, K) && Rows(vs, d)
    ensures |r| == |acc|
    decreases |vs|
  {
    if vs == [] then acc else Fold(Step(acc, d, K, vs[0], j), d, K, vs[1..], j + 1)
  }

  /** Folding whole accumulators folds each channel on its own column, independently. */
  lemma {:induction false} FoldChan(acc: seq<Val>, d: nat, K: nat, vs: seq<seq<Val>>, j: int, k: nat)
    requires |acc| == AccDim(d, K) && Rows(vs, d) && k < d
    ensures Chan(Fold(acc, d, K, vs, j), d, K, k) == FoldList(Chan(acc, d, K, k), Column(vs, d, k), j)
    decreases |vs|
  {
    if vs != [] {
      StepChan(acc, d, K, vs[0], j, k);
      FoldChan(Step(acc, d, K, vs[0], j), d, K, vs[1..], j + 1, k);
      assert Column(vs[1..], d, k) == Column(vs, d, k)[1..];
    }
  }

  /**
   * What the reduction outputs. For channel k, arrange K identity entries and the entries
   * (v[t][k], t) by value and then by index; after folding rows v[0..n) from the identity,
   * output slot k + D*s holds the index of the s-th of them.
   */
  lemma FoldOutputsFirstK(d: nat, K: nat, vs: seq<seq<Val>>, k: nat, sorted: seq<Entry>, s: nat)
    requires Rows(vs, d) && k < d && s < K
    requires LexSorted(sorted)
    requires multiset(sorted) == multiset(InitList(K) + Offered(Column(vs, d, k), 0))
    ensures s < |sorted| && OutPos(d, k, s) < OutDim(d, K)
    ensures Output(Fold(Identity(d, K), d, K, vs, 0), d, K)[OutPos(d, k, s)] == sorted[s].index
  {
    var r := Fold(Identity(d, K), d, K, vs, 0);
    FoldChan(Identity(d, K), d, K, vs, 0, k);
    IdentityChan(d, K, k);
    FoldSelectsFirstK(K, Column(vs, d, k), sorted);
    OutputAt(r, d, K, k, s);
  }

  /** After any folds from the identity, the value slots of every channel are in non-decreasing order. */
  lemma FoldKeepsChannelsSorted(d: nat, K: nat, vs: seq<seq<Val>>, k: nat)
    requires Rows(vs, d) && k < d
    ensures Sorted(Chan(Fold(Identity(d, K), d, K, vs, 0), d, K, k))
  {
    FoldChan(Identity(d, K), d, K, vs, 0, k);
    IdentityChan(d, K, k);
    FoldListSorted(InitList(K), Column(vs, d, k), 0);
  }

  // ---------------------------------------------------------------------------
  // The operations, in place
  // ---------------------------------------------------------------------------

  /** `InitializeReduction`: +infinity in every value slot, 0 in every index slot. */
  method InitializeReduction(tmp: array<Val>, d: nat, K: nat)
    requires tmp.Length == AccDim(d, K)
    modifies tmp
    ensures tmp[..] == Identity(d, K)
    ensures forall k :: 0 <= k < d ==> Chan(tmp[..], d, K, k) == InitList(K)
  {
    for k := 0 to d
      invariant forall c :: 0 <= c < k ==> Chan(tmp[..], d, K, c) == InitList(K)
    {
      var l := k;
      ghost var s: nat := 0;
      while l < K * 2 * d + k
        invariant s <= K && l == Pos(d, k, s, 0)
        invariant forall c :: 0 <= c < k ==> Chan(tmp[..], d, K, c) == InitList(K)
        invariant forall t :: 0 <= t < s ==> Chan(tmp[..], d, K, k)[t] == Unset
        decreases K - s
      {
        SlotBounds(d, K, k, s);
        ghost var before := tmp[..];
        ChanUpdate(before, d, K, k, s, Unset);
        tmp[l] := PosInf;
        tmp[l + d] := Fin(0);
        assert tmp[..] == before[Pos(d, k, s, 0) := PosInf][Pos(d, k, s, 1) := Fin(0)];
        l, s := l + 2 * d, s + 1;
      }
      SlotBounds(d, K, k, s);
      assert Chan(tmp[..], d, K, k) == InitList(K);
    }
    forall k | 0 <= k < d ensures Chan(tmp[..], d, K, k) == Chan(Identity(d, K), d, K, k) {
      IdentityChan(d, K, k);
    }
    ChansDetermine(tmp[..], Identity(d, K), d, K);
  }

  /**
   * The backward loop of `ReducePairShort` for one channel k: it leaves the channel as
   * `Insert` says, and leaves every other channel as it was.
   */
  method InsertIntoChannel(tmp: array<Val>, d: nat, K: nat, k: nat, x: Val, j: int)
    requires tmp.Length == AccDim(d, K) && k < d
    modifies tmp
    ensures Chan(tmp[..], d, K, k) == Insert(Chan(old(tmp[..]), d, K, k), x, j)
    ensures forall c :: 0 <= c < d && c != k ==> Chan(tmp[..], d, K, c) == Chan(old(tmp[..]), d, K, c)
  {
    SlotBounds(d, K, k, 0);
    if K > 0 { PosSplit(d, K, k, K - 1, 0); }
    var last: int := (K - 1) * 2 * d + k;
    var l: int := last;
    ghost var s: int := K - 1;
    while l >= k && Less(x, tmp[l])
      invariant K > 0 ==> last == Pos(d, k, K - 1, 0)
      invariant ScanState(tmp[..], old(tmp[..]), d, K, k, x, j, s, l)
      decreases s
    {
      ScanAdvance(tmp[..], old(tmp[..]), d, K, k, x, j, s, l);
      ScanStep(tmp, d, K, k, s, l, last, x, j);
      l := l - 2 * d;
      s := s - 1;
    }
    ScanDone(tmp[..], old(tmp[..]), d, K, k, x, j, s, l);
  }

  /**
   * State of the backward loop over channel k of the array `orig`: l is the position of slot s
   * (or below k once s = -1), channel k is `Shifted` and the other channels are untouched.
   */
  ghost predicate ScanState(a: seq<Val>, orig: seq<Val>, d: nat, K: nat, k: nat, x: Val, j: int, s: int, l: int) {
    && |a| == |orig| == AccDim(d, K) && k < d && -1 <= s < K
    && (s >= 0 ==> l == Pos(d, k, s, 0) < |a|)
    && (s == -1 ==> l < k)
    && Shifted(Chan(orig, d, K, k), Chan(a, d, K, k), x, j, s)
    && forall c :: 0 <= c < d && c != k ==> Chan(a, d, K, c) == Chan(orig, d, K, c)
  }

  /** One turn of the loop keeps `ScanState`, one slot further down. */
  lemma ScanAdvance(a: seq<Val>, orig: seq<Val>, d: nat, K: nat, k: nat, x: Val, j: int, s: int, l: int)
    requires ScanState(a, orig, d, K, k, x, j, s, l) && l >= k && Less(x, a[l])
    ensures s >= 0
    ensures ScanState(ShiftWrite(a, d, K, k, s, x, j), orig, d, K, k, x, j, s - 1, l - 2 * d)
  {
    assert s >= 0;
    ShiftWriteChan(a, d, K, k, s, x, j);
    ChanAt(a, d, K, k, s);
    ShiftStep(Chan(orig, d, K, k), Chan(a, d, K, k), x, j, s);
    if s >= 1 { PosSplit(d, K, k, s - 1, 0); SlotBounds(d, K, k, s - 1); }
  }

  /** When the loop stops, channel k holds `Insert` of its old content. */
  lemma ScanDone(a: seq<Val>, orig: seq<Val>, d: nat, K: nat, k: nat, x: Val, j: int, s: int, l: int)
    requires ScanState(a, orig, d, K, k, x, j, s, l) && !(l >= k && Less(x, a[l]))
    ensures Chan(a, d, K, k) == Insert(Chan(orig, d, K, k), x, j)
    ensures forall c :: 0 <= c < d && c != k ==> Chan(a, d, K, c) == Chan(orig, d, K, c)
  {
    if s >= 0 { ChanAt(a, d, K, k, s); }
    ShiftedIsInsert(Chan(orig, d, K, k), Chan(a, d, K, k), x, j, s);
  }

  /**
   * The body of the backward loop at position l = slot s of channel k: write the new entry
   * there and, unless s is the last slot, move the old entry up one slot.
   */
  method ScanStep(tmp: array<Val>, d: nat, K: nat, k: nat, ghost s: nat, l: int, last: int, x: Val, j: int)
    requires tmp.Length == AccDim(d, K) && k < d && s < K
    requires l == Pos(d, k, s, 0) && last == Pos(d, k, K - 1, 0)
    modifies tmp
    ensures tmp[..] == ShiftWrite(old(tmp[..]), d, K, k, s, x, j)
  {
    ghost var before := tmp[..];
    ShiftWriteChan(before, d, K, k, s, x, j);
    var tmpl := tmp[l];
    var indtmpl := tmp[l + d];
    tmp[l] := x;
    tmp[l + d] := Fin(j);
    assert tmp[..] == before[l := x][l + d := Fin(j)];
    if s < K - 1 { TimesMonotone(2 * d, s, K - 1); }
    if l < last {
      ghost var mid := tmp[..];
      tmp[l + 2 * d] := tmpl;
      tmp[l + 2 * d + d] := indtmpl;
      assert tmp[..] == mid[l + 2 * d := tmpl][l + 2 * d + d := indtmpl];
    }
  }

  /**
   * Loop state of the backward scan over the original channel o: slots 0..s untouched, the
   * new entry at s+1, the entries above it moved up by one, all of them above x.
   */
  ghost predicate Shifted(o: seq<Entry>, cur: seq<Entry>, x: Val, j: int, s: int) {
    && |cur| == |o| && -1 <= s < |o|
    && (forall t :: 0 <= t <= s ==> cur[t] == o[t])
    && (s < |o| - 1 ==> cur[s + 1] == Entry(x, Fin(j)))
    && (forall t :: s + 2 <= t < |o| ==> cur[t] == o[t - 1])
    && (forall t :: s < t < |o| ==> Less(x, o[t].value))
  }

  /** One step of the scan: put the new entry at slot s and move the old slot s up by one. */
  function ShiftOnce(cur: seq<Entry>, x: Val, j: int, s: nat): (r: seq<Entry>)
    requires s < |cur|
    ensures |r| == |cur| && r[s] == Entry(x, Fin(j))
    ensures s + 1 < |cur| ==> r[s + 1] == cur[s]
    ensures forall t :: 0 <= t < |cur| && t != s && t != s + 1 ==> r[t] == cur[t]
  {
    if s + 1 < |cur| then cur[s := Entry(x, Fin(j))][s + 1 := cur[s]] else cur[s := Entry(x, Fin(j))]
  }

  lemma ShiftStep(o: seq<Entry>, cur: seq<Entry>, x: Val, j: int, s: int)
    requires Shifted(o, cur, x, j, s) && s >= 0 && Less(x, o[s].value)
    ensures Shifted(o, ShiftOnce(cur, x, j, s), x, j, s - 1)
  {
  }

  /** The array after one step of the scan at slot s of channel k. */
  ghost function ShiftWrite(a: seq<Val>, d: nat, K: nat, k: nat, s: nat, x: Val, j: int): (r: seq<Val>)
    requires |a| == AccDim(d, K) && k < d && s < K
    ensures |r| == |a|
  {
    ChanUpdate(a, d, K, k, s, Entry(x, Fin(j)));
    var a1 := a[Pos(d, k, s, 0) := x][Pos(d, k, s, 1) := Fin(j)];
    if s + 1 < K then
      ChanUpdate(a1, d, K, k, s + 1, Entry(a[Pos(d, k, s, 0)], a[Pos(d, k, s, 1)]));
      a1[Pos(d, k, s + 1, 0) := a[Pos(d, k, s, 0)]][Pos(d, k, s + 1, 1) := a[Pos(d, k, s, 1)]]
    else
      a1
  }

  /** One step of the scan acts on channel k as `ShiftOnce` and leaves the other channels alone. */
  lemma ShiftWriteChan(a: seq<Val>, d: nat, K: nat, k: nat, s: nat, x: Val, j: int)
    requires |a| == AccDim(d, K) && k < d && s < K
    ensures Pos(d, k, s, 1) == Pos(d, k, s, 0) + d < |a|
    ensures s + 1 < K ==> Pos(d, k, s + 1, 0) == Pos(d, k, s, 0) + 2 * d && Pos(d, k, s + 1, 1) < |a|
    ensures Chan(ShiftWrite(a, d, K, k, s, x, j), d, K, k) == ShiftOnce(Chan(a, d, K, k), x, j, s)
    ensures forall c :: 0 <= c < d && c != k ==>
      Chan(ShiftWrite(a, d, K, k, s, x, j), d, K, c) == Chan(a, d, K, c)
  {
    ChanAt(a, d, K, k, s);
    ChanUpdate(a, d, K, k, s, Entry(x, Fin(j)));
    var a1 := a[Pos(d, k, s, 0) := x][Pos(d, k, s, 1) := Fin(j)];
    if s + 1 < K {
      ChanUpdate(a1, d, K, k, s + 1, Entry(a[Pos(d, k, s, 0)], a[Pos(d, k, s, 1)]));
    }
  }

  /** When the scan stops, the state it leaves is `Insert`. */
  lemma ShiftedIsInsert(o: seq<Entry>, cur: seq<Entry>, x: Val, j: int, s: int)
    requires Shifted(o, cur, x, j, s)
    requires s >= 0 ==> !Less(x, o[s].value)
    ensures cur == Insert(o, x, j)
  {
    var p := s + 1;
    InsertPosUnique(o, x, p);
    if p < |o| {
      var r := o[..p] + [Entry(x, Fin(j))] + o[p..|o| - 1];
      assert |r| == |cur|;
      forall t | 0 <= t < |cur| ensures cur[t] == r[t] {
        if t > p { assert r[t] == o[p..|o| - 1][t - p - 1]; }
      }
    } else {
      assert cur == o;
    }
  }

  /** `ReducePairShort(tmp, xi, j)`: fold the formula output `xi` found at inner index `j`. */
  method ReducePairShort(tmp: array<Val>, d: nat, K: nat, xi: seq<Val>, j: int)
    requires tmp.Length == AccDim(d, K) && |xi| == d
    modifies tmp
    ensures tmp[..] == Step(old(tmp[..]), d, K, xi, j)
  {
    ghost var acc := tmp[..];
    for k := 0 to d
      invariant forall c :: 0 <= c < k ==> Chan(tmp[..], d, K, c) == Insert(Chan(acc, d, K, c), xi[c], j)
      invariant forall c :: k <= c < d ==> Chan(tmp[..], d, K, c) == Chan(acc, d, K, c)
    {
      var xik := xi[k];
      InsertIntoChannel(tmp, d, K, k, xik, j);
    }
    forall c | 0 <= c < d ensures Chan(tmp[..], d, K, c) == Chan(Step(acc, d, K, xi, j), d, K, c) {
      StepChan(acc, d, K, xi, j, c);
    }
    ChansDetermine(tmp[..], Step(acc, d, K, xi, j), d, K);
  }

  /** `FinalizeOutput(tmp, out)`: out[k + D*s] receives the index of slot s of channel k. */
  method FinalizeOutput(tmp: seq<Val>, out: array<Val>, d: nat, K: nat)
    requires |tmp| == AccDim(d, K) && out.Length == OutDim(d, K)
    modifies out
    ensures out[..] == Output(tmp, d, K)
  {
    for k := 0 to d
      invariant forall c :: 0 <= c < k ==> OutChan(out[..], d, K, c) == Indices(Chan(tmp, d, K, c))
    {
      var p, l := k, k;
      ghost var s: nat := 0;
      while l < K * 2 * d + k
        invariant s <= K && l == Pos(d, k, s, 0) && p == OutPos(d, k, s)
        invariant forall c :: 0 <= c < k ==> OutChan(out[..], d, K, c) == Indices(Chan(tmp, d, K, c))
        invariant forall t :: 0 <= t < s ==> OutChan(out[..], d, K, k)[t] == Chan(tmp, d, K, k)[t].index
        decreases K - s
      {
        SlotBounds(d, K, k, s);
        ChanAt(tmp, d, K, k, s);
        ghost var before := out[..];
        OutChanUpdate(before, d, K, k, s, tmp[l + d]);
        out[p] := tmp[l + d];
        assert out[..] == before[OutPos(d, k, s) := tmp[Pos(d, k, s, 1)]];
        p, l, s := p + d, l + 2 * d, s + 1;
      }
      SlotBounds(d, K, k, s);
      assert OutChan(out[..], d, K, k) == Indices(Chan(tmp, d, K, k));
    }
    forall c | 0 <= c < d ensures OutChan(out[..], d, K, c) == OutChan(Output(tmp, d, K), d, K, c) {
      OutputChan(tmp, d, K, c);
    }
    OutChansDetermine(out[..], Output(tmp, d, K), d, K);
  }

  // ---------------------------------------------------------------------------
  // Gradient
  // ---------------------------------------------------------------------------

  /** `ZeroReduction<DIM, CAT>`: the reduction whose result is zero, of width DIM, in category CAT. */
  datatype ZeroReduction = ZeroReduction(dim: nat, cat: int)

  /** `DiffT<V, GRADIN>`: arg-k-min has no gradient; differentiating it gives a zero reduction. */
  function DiffT(wrt: Variables.Var, gradin: Variables.Formula): ZeroReduction {
    ZeroReduction(wrt.dim, wrt.cat)
  }

  /**
   * The gradient with respect to a variable V is zero, has V's width and category, and does
   * not depend on the incoming gradient.
   */
  lemma DiffTIsZero(wrt: Variables.Var, g1: Variables.Formula, g2: Variables.Formula)
    ensures DiffT(wrt, g1) == DiffT(wrt, g2)
    ensures DiffT(wrt, g1).dim == wrt.dim && DiffT(wrt, g1).cat == wrt.cat
  {
  }
}
