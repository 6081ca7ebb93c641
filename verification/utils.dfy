/**
 * The batch-shape and axis helpers of the Python front end: converting between the
 * "axis" of a reduction (the dimension summed over) and the KeOps "category" (the dimension
 * that remains), and checking that two batch shapes broadcast against each other.
 */
module Utils {
  import opened Wrappers

  /** The `ValueError`s the helpers raise. */
  datatype ValueError =
    | InvalidAxis
    | InvalidCategory
    | IncompatibleBatchDimensions(dims1: seq<int>, dims2: seq<int>)

  /** The message text of each error. */
  function Message(e: ValueError): string {
    match e
    case InvalidAxis => "Axis should be 0 or 1."
    case InvalidCategory => "Category should be Vi or Vj."
    case IncompatibleBatchDimensions(_, _) => "Incompatible batch dimensions"
  }

  // ---------------------------------------------------------------------------
  // axis2cat / cat2axis
  // ---------------------------------------------------------------------------

  /** `axis2cat`: summing over axis 0 leaves category 1 and conversely; other axes are rejected. */
  function AxisToCat(axis: int): (r: Result<int, ValueError>)
    ensures r.Ok? <==> axis == 0 || axis == 1
    ensures r.Ok? ==> r.value == 1 - axis
    ensures r.Err? ==> r.error == InvalidAxis
  {
    if axis == 0 || axis == 1 then Ok((axis + 1) % 2) else Err(InvalidAxis)
  }

  /** `cat2axis`: the same swap from categories back to axes. */
  function CatToAxis(cat: int): (r: Result<int, ValueError>)
    ensures r.Ok? <==> cat == 0 || cat == 1
    ensures r.Ok? ==> r.value == 1 - cat
    ensures r.Err? ==> r.error == InvalidCategory
  {
    if cat == 0 || cat == 1 then Ok((cat + 1) % 2) else Err(InvalidCategory)
  }

  /**
   * The two conversions accept the same inputs, compute the same swap, and undo each other:
   * converting an axis to a category and back gives the axis, and conversely.
   */
  lemma AxisCatRoundTrip(a: int)
    ensures AxisToCat(a).Ok? <==> CatToAxis(a).Ok?
    ensures AxisToCat(a).Ok? ==> AxisToCat(a).value == CatToAxis(a).value
    ensures AxisToCat(a).Ok? ==> CatToAxis(AxisToCat(a).value) == Ok(a)
    ensures CatToAxis(a).Ok? ==> AxisToCat(CatToAxis(a).value) == Ok(a)
    ensures AxisToCat(a).Ok? ==> AxisToCat(a).value != a
  {
  }

  // ---------------------------------------------------------------------------
  // max_tuple
  // ---------------------------------------------------------------------------

  function Max(x: int, y: int): int {
    if x < y then y else x
  }

  /** `max_tuple(a, b)`: the elementwise maximum over the pairs `zip` forms. */
  function MaxTuple(a: seq<int>, b: seq<int>): (r: seq<int>)
    ensures |r| == if |a| < |b| then |a| else |b|
    ensures forall i :: 0 <= i < |r| ==> r[i] >= a[i] && r[i] >= b[i]
    ensures forall i :: 0 <= i < |r| ==> r[i] == a[i] || r[i] == b[i]
    decreases |a|
  {
    if a == [] || b == [] then [] else [Max(a[0], b[0])] + MaxTuple(a[1..], b[1..])
  }

  /** The elementwise maximum does not depend on the order of its arguments. */
  lemma MaxTupleCommutes(a: seq<int>, b: seq<int>)
    ensures MaxTuple(a, b) == MaxTuple(b, a)
  {
    var r, r' := MaxTuple(a, b), MaxTuple(b, a);
    forall i | 0 <= i < |r| ensures r[i] == r'[i] {
    }
  }

  /** The maximum of a shape with itself is that shape. */
  lemma MaxTupleIdempotent(a: seq<int>)
    ensures MaxTuple(a, a) == a
  {
  }

  /** Every common upper bound of the two inputs bounds the result: it is the least one. */
  lemma MaxTupleLeast(a: seq<int>, b: seq<int>, c: seq<int>)
    requires |a| == |b| == |c|
    requires forall i :: 0 <= i < |c| ==> a[i] <= c[i] && b[i] <= c[i]
    ensures forall i :: 0 <= i < |c| ==> MaxTuple(a, b)[i] <= c[i]
  {
  }

  // ---------------------------------------------------------------------------
  // check_broadcasting
  // ---------------------------------------------------------------------------

  /** `(1,) * k`: k ones, none when k is zero or negative. */
  function Ones(k: int): (r: seq<int>)
    ensures |r| == (if k < 0 then 0 else k)
    ensures forall i :: 0 <= i < |r| ==> r[i] == 1
    decreases k
  {
    if k <= 0 then [] else [1] + Ones(k - 1)
  }

  /** A shape left-padded with ones to the length of another. */
  function Padded(dims: seq<int>, other: seq<int>): seq<int> {
    Ones(|other| - |dims|) + dims
  }

  /** Two batch sizes are compatible when either is 1 or they are equal. */
  predicate Compatible(x: int, y: int) {
    x == 1 || y == 1 || x == y
  }

  /** The loop over `zip` of the padded shapes: it finds no incompatible pair. */
  function AllCompatible(p1: seq<int>, p2: seq<int>): (ok: bool)
    ensures ok <==> forall i :: 0 <= i < |p1| && i < |p2| ==> Compatible(p1[i], p2[i])
    decreases |p1|
  {
    if p1 == [] || p2 == [] then true
    else Compatible(p1[0], p2[0]) && AllCompatible(p1[1..], p2[1..])
  }

  /** `check_broadcasting(dims_1, dims_2)`; `None` is an absent batch shape. */
  function CheckBroadcasting(dims1: Option<seq<int>>, dims2: Option<seq<int>>): Result<Option<seq<int>>, ValueError> {
    if dims1.None? then Ok(dims2)
    else if dims2.None? then Ok(dims1)
    else
      var p1, p2 := Padded(dims1.value, dims2.value), Padded(dims2.value, dims1.value);
      if !AllCompatible(p1, p2) then Err(IncompatibleBatchDimensions(dims1.value, dims2.value))
      else Ok(Some(MaxTuple(p1, p2)))
  }

  /**
   * Entry i of shape d once it is aligned to the right in a row of n entries: 1 in the
   * first n - |d| places, then the entries of d.
   */
  function AlignedAt(d: seq<int>, n: nat, i: nat): int
    requires |d| <= n && i < n
  {
    if i < n - |d| then 1 else d[i - (n - |d|)]
  }

  /** The padded shape is the right-aligned one, of the longer of the two lengths. */
  lemma PaddedAligned(d: seq<int>, other: seq<int>)
    ensures var n := if |d| < |other| then |other| else |d|;
      && |Padded(d, other)| == n
      && forall i :: 0 <= i < n ==> Padded(d, other)[i] == AlignedAt(d, n, i)
  {
  }

  /** An absent shape leaves the other one as the answer. */
  lemma CheckBroadcastingNone(d: Option<seq<int>>)
    ensures CheckBroadcasting(None, d) == Ok(d) && CheckBroadcasting(d, None) == Ok(d)
  {
  }

  /**
   * With two shapes of lengths n1 and n2 and n their maximum, aligned to the right:
   * the check fails exactly when some aligned pair has two entries different from 1 that
   * differ, and otherwise returns n entries, each the larger of its pair.
   */
  lemma CheckBroadcastingSpec(d1: seq<int>, d2: seq<int>)
    ensures var n := if |d1| < |d2| then |d2| else |d1|;
      var r := CheckBroadcasting(Some(d1), Some(d2));
      && (r.Err? <==> exists i :: 0 <= i < n && !Compatible(AlignedAt(d1, n, i), AlignedAt(d2, n, i)))
      && (r.Err? ==> r.error == IncompatibleBatchDimensions(d1, d2))
      && (r.Ok? ==> r.value.Some? && |r.value.value| == n)
      && (r.Ok? ==> forall i :: 0 <= i < n ==>
            r.value.value[i] == Max(AlignedAt(d1, n, i), AlignedAt(d2, n, i)))
  {
    PaddedAligned(d1, d2);
    PaddedAligned(d2, d1);
    var n := if |d1| < |d2| then |d2| else |d1|;
    var p1, p2 := Padded(d1, d2), Padded(d2, d1);
    if !AllCompatible(p1, p2) {
      var i :| 0 <= i < |p1| && i < |p2| && !Compatible(p1[i], p2[i]);
      assert !Compatible(AlignedAt(d1, n, i), AlignedAt(d2, n, i));
    } else {
      forall i | 0 <= i < n ensures Compatible(AlignedAt(d1, n, i), AlignedAt(d2, n, i)) {
        assert Compatible(p1[i], p2[i]);
      }
      var r := MaxTuple(p1, p2);
      forall i | 0 <= i < n ensures r[i] == Max(AlignedAt(d1, n, i), AlignedAt(d2, n, i)) {
        assert r[i] >= p1[i] && r[i] >= p2[i];
      }
    }
  }

  /** The check is symmetric: same verdict, same broadcast shape, whichever shape comes first. */
  lemma CheckBroadcastingSymmetric(d1: Option<seq<int>>, d2: Option<seq<int>>)
    ensures CheckBroadcasting(d1, d2).Ok? <==> CheckBroadcasting(d2, d1).Ok?
    ensures CheckBroadcasting(d1, d2).Ok? ==>
      CheckBroadcasting(d1, d2).value == CheckBroadcasting(d2, d1).value
  {
    if d1.Some? && d2.Some? {
      var p1, p2 := Padded(d1.value, d2.value), Padded(d2.value, d1.value);
      MaxTupleCommutes(p1, p2);
      if AllCompatible(p1, p2) {
        assert AllCompatible(p2, p1);
      } else {
        var i :| 0 <= i < |p1| && i < |p2| && !Compatible(p1[i], p2[i]);
        assert !Compatible(p2[i], p1[i]);
      }
    }
  }

  /** A shape broadcasts with itself to itself. */
  lemma CheckBroadcastingIdempotent(d: seq<int>)
    ensures CheckBroadcasting(Some(d), Some(d)) == Ok(Some(d))
  {
    assert Padded(d, d) == d;
    MaxTupleIdempotent(d);
  }

  /**
   * When the check succeeds on batch sizes of at least 1, each input broadcasts to the
   * result: every aligned entry of either input is 1 or equal to the result's entry.
   */
  lemma CheckBroadcastingBroadcasts(d1: seq<int>, d2: seq<int>)
    requires forall i :: 0 <= i < |d1| ==> d1[i] >= 1
    requires forall i :: 0 <= i < |d2| ==> d2[i] >= 1
    requires CheckBroadcasting(Some(d1), Some(d2)).Ok?
    ensures var n := if |d1| < |d2| then |d2| else |d1|;
      var r := CheckBroadcasting(Some(d1), Some(d2)).value.value;
      forall i :: 0 <= i < n ==>
        (AlignedAt(d1, n, i) == 1 || AlignedAt(d1, n, i) == r[i]) &&
        (AlignedAt(d2, n, i) == 1 || AlignedAt(d2, n, i) == r[i])
  {
    CheckBroadcastingSpec(d1, d2);
    var n := if |d1| < |d2| then |d2| else |d1|;
    forall i | 0 <= i < n ensures AlignedAt(d1, n, i) >= 1 && AlignedAt(d2, n, i) >= 1 {
    }
  }

  /**
   * Batch size 0 is not covered by the rule above: the maximum turns the pair (0, 1) into 1,
   * so the size-0 batch does not broadcast to the result.
   */
  lemma EmptyBatchTakesMax()
    ensures CheckBroadcasting(Some([0]), Some([1])) == Ok(Some([1]))
  {
    assert Ones(0) == [];
    assert Padded([0], [1]) == [0] && Padded([1], [0]) == [1];
    assert AllCompatible([0], [1]);
    assert MaxTuple([0], [1]) == [1] + MaxTuple([], []);
    assert MaxTuple([0], [1]) == [1];
    assert CheckBroadcasting(Some([0]), Some([1])) == Ok(Some(MaxTuple([0], [1])));
  }
}
