/**
 * One channel of the arg-k-min accumulator, seen as the list of its K (value, index)
 * slots in slot order. `Insert` is what the backward loop of `ReducePairShort` does to
 * that list; the lemmas say what it keeps and what folding it over a row computes.
 */
module ArgKMinList {
  import opened Slots

  /** Values in non-decreasing slot order. */
  ghost predicate Sorted(l: seq<Entry>) {
    forall a, b :: 0 <= a < b < |l| ==> Le(l[a].value, l[b].value)
  }

  /**
   * The slot the backward scan stops at: it starts at the last slot and moves down while
   * `x` is strictly below the value there, so every slot from `p` on holds a larger value.
   */
  function InsertPos(l: seq<Entry>, x: Val): (p: nat)
    ensures p <= |l|
    ensures forall t :: p <= t < |l| ==> Less(x, l[t].value)
    ensures p > 0 ==> !Less(x, l[p - 1].value)
    decreases |l|
  {
    if l == [] then 0
    else if Less(x, l[|l| - 1].value) then InsertPos(l[..|l| - 1], x)
    else |l|
  }

  /**
   * The K-slot insertion: (x, j) goes to slot `InsertPos`, the slots after it shift one
   * down and the previous last slot is discarded; when x is not below the last value,
   * nothing changes.
   */
  function Insert(l: seq<Entry>, x: Val, j: int): (r: seq<Entry>)
    ensures |r| == |l|
  {
    var p := InsertPos(l, x);
    if p == |l| then l else l[..p] + [Entry(x, Fin(j))] + l[p..|l| - 1]
  }

  /** Insertion without a bound on the number of slots: nothing is discarded. */
  function UInsert(l: seq<Entry>, x: Val, j: int): (r: seq<Entry>)
    ensures |r| == |l| + 1
  {
    var p := InsertPos(l, x);
    l[..p] + [Entry(x, Fin(j))] + l[p..]
  }

  /** The channel is left alone exactly when x is not strictly below its last (worst) value. */
  lemma InsertUnchangedIff(l: seq<Entry>, x: Val, j: int)
    ensures Insert(l, x, j) == l <==> (l == [] || !Less(x, l[|l| - 1].value))
  {
    var p := InsertPos(l, x);
    if l != [] && Less(x, l[|l| - 1].value) {
      assert p < |l|;
      assert Insert(l, x, j)[p] == Entry(x, Fin(j));
      assert Less(x, l[p].value);
    }
  }

  /** The scan's stopping slot is the only slot with the two properties of `InsertPos`. */
  lemma InsertPosUnique(l: seq<Entry>, x: Val, p: nat)
    requires p <= |l|
    requires forall t :: p <= t < |l| ==> Less(x, l[t].value)
    requires p > 0 ==> !Less(x, l[p - 1].value)
    ensures p == InsertPos(l, x)
  {
  }

  /** On a sorted list the scan stops right after the last value not above x. */
  lemma InsertPosSorted(l: seq<Entry>, x: Val, t: nat)
    requires Sorted(l) && t < |l|
    ensures Less(x, l[t].value) <==> t >= InsertPos(l, x)
  {
    var p := InsertPos(l, x);
    if t < p {
      assert Le(l[t].value, l[p - 1].value);
    }
  }

  /**
   * Where the new entry lands in a sorted channel: slots before it are unchanged and hold
   * values not above x (so an equal value stays ahead of the newcomer, keeping its better
   * rank), and the slots after it hold the previous entries shifted by one, all above x.
   */
  lemma InsertPlacement(l: seq<Entry>, x: Val, j: int)
    requires Sorted(l) && l != [] && Less(x, l[|l| - 1].value)
    ensures var p, r := InsertPos(l, x), Insert(l, x, j);
      && p < |l| && r[p] == Entry(x, Fin(j))
      && (forall t :: 0 <= t < p ==> r[t] == l[t] && Le(l[t].value, x))
      && (forall t :: p < t < |l| ==> r[t] == l[t - 1] && Less(x, r[t].value))
  {
    var p := InsertPos(l, x);
    InsertLayout(l, x, j);
    forall t | 0 <= t < p ensures Le(l[t].value, x) {
      InsertPosSorted(l, x, t);
    }
  }

  /** Slot by slot, K-slot insertion at p = `InsertPos` when x is below the last value. */
  lemma InsertLayout(l: seq<Entry>, x: Val, j: int)
    requires l != [] && Less(x, l[|l| - 1].value)
    ensures var p, r := InsertPos(l, x), Insert(l, x, j);
      && p < |l| && r[p] == Entry(x, Fin(j))
      && (forall t :: 0 <= t < p ==> r[t] == l[t])
      && (forall t :: p < t < |l| ==> r[t] == l[t - 1])
  {
    var p := InsertPos(l, x);
    assert p < |l|;
    Splice(l, p, Entry(x, Fin(j)), |l| - 1);
  }

  /** Elements of l[..p] + [e] + l[p..n]. */
  lemma Splice(l: seq<Entry>, p: nat, e: Entry, n: nat)
    requires p <= n <= |l|
    ensures var r := l[..p] + [e] + l[p..n];
      && |r| == n + 1 && r[p] == e
      && (forall t :: 0 <= t < p ==> r[t] == l[t])
      && (forall t :: p < t <= n ==> r[t] == l[t - 1])
  {
  }

  /** Slot by slot, unbounded insertion at p = `InsertPos`. */
  lemma UInsertLayout(l: seq<Entry>, x: Val, j: int)
    ensures var p, u := InsertPos(l, x), UInsert(l, x, j);
      && u[p] == Entry(x, Fin(j))
      && (forall t :: 0 <= t < p ==> u[t] == l[t])
      && (forall t :: p < t < |u| ==> u[t] == l[t - 1])
  {
    var p := InsertPos(l, x);
    Splice(l, p, Entry(x, Fin(j)), |l|);
    assert l[p..] == l[p..|l|];
  }

  /** An entry whose value equals x keeps a slot ahead of the inserted one. */
  lemma InsertTieBreak(l: seq<Entry>, x: Val, j: int, t: nat)
    requires Sorted(l) && t < |l| && l[t].value == x
    ensures t < InsertPos(l, x)
  {
    InsertPosSorted(l, x, t);
  }

  /** Insertion keeps the channel sorted. */
  lemma InsertSorted(l: seq<Entry>, x: Val, j: int)
    requires Sorted(l)
    ensures Sorted(Insert(l, x, j)) && Sorted(UInsert(l, x, j))
  {
    UInsertSorted(l, x, j);
    var u := UInsert(l, x, j);
    assert Insert(l, x, j) == u[..|l|];
  }

  lemma UInsertSorted(l: seq<Entry>, x: Val, j: int)
    requires Sorted(l)
    ensures Sorted(UInsert(l, x, j))
  {
    var p := InsertPos(l, x);
    var u := UInsert(l, x, j);
    UInsertLayout(l, x, j);
    forall a, b | 0 <= a < b < |u| ensures Le(u[a].value, u[b].value) {
      if b < p {
      } else if b == p {
        InsertPosSorted(l, x, a);
      } else if a < p {
        InsertPosSorted(l, x, a);
        assert Le(x, l[b - 1].value);
      } else if a == p {
      } else {
      }
    }
  }

  /** The stored entries become the old ones, minus the old worst, plus (x, j). */
  lemma InsertMultiset(l: seq<Entry>, x: Val, j: int)
    requires l != [] && Less(x, l[|l| - 1].value)
    ensures multiset(Insert(l, x, j))
         == multiset(l) - multiset{l[|l| - 1]} + multiset{Entry(x, Fin(j))}
  {
    var p := InsertPos(l, x);
    var n := |l|;
    assert l == l[..p] + l[p..n - 1] + [l[n - 1]];
    assert multiset(l) == multiset(l[..p]) + multiset(l[p..n - 1]) + multiset{l[n - 1]};
  }

  /** Unbounded insertion adds exactly the new entry. */
  lemma UInsertMultiset(l: seq<Entry>, x: Val, j: int)
    ensures multiset(UInsert(l, x, j)) == multiset(l) + multiset{Entry(x, Fin(j))}
  {
    var p := InsertPos(l, x);
    assert l == l[..p] + l[p..];
  }

  /** K-slot insertion into the first K entries of a sorted list is the first K of an unbounded one. */
  lemma InsertTruncates(l: seq<Entry>, x: Val, j: int, k: nat)
    requires Sorted(l) && k <= |l|
    ensures Insert(l[..k], x, j) == UInsert(l, x, j)[..k]
  {
    var q := InsertPos(l, x);
    var m := if q < k then q else k;
    if 0 < k <= q {
      InsertPosSorted(l, x, k - 1);
    }
    InsertPosUnique(l[..k], x, m);
    PrefixInsert(l, x, j, k);
  }

  /** The same, once the scan over the prefix is known to stop at the bound or where the full scan does. */
  lemma PrefixInsert(l: seq<Entry>, x: Val, j: int, k: nat)
    requires k <= |l|
    requires InsertPos(l[..k], x) == if InsertPos(l, x) < k then InsertPos(l, x) else k
    ensures Insert(l[..k], x, j) == UInsert(l, x, j)[..k]
  {
    var m := InsertPos(l[..k], x);
    var e := Entry(x, Fin(j));
    if m < k {
      assert l[..k][..m] == l[..m] && l[..k][m..k - 1] == l[m..k - 1];
      assert UInsert(l, x, j)[..k] == l[..m] + [e] + l[m..k - 1];
    } else {
      assert UInsert(l, x, j)[..k] == l[..k];
    }
  }

  // ---------------------------------------------------------------------------
  // Folding a row of values
  // ---------------------------------------------------------------------------

  /** The K-slot channel after folding the values vs found at inner indices j, j+1, .... */
  function FoldList(l: seq<Entry>, vs: seq<Val>, j: int): (r: seq<Entry>)
    ensures |r| == |l|
    decreases |vs|
  {
    if vs == [] then l else FoldList(Insert(l, vs[0], j), vs[1..], j + 1)
  }

  /** The same fold without a bound on the number of slots. */
  ghost function UFold(l: seq<Entry>, vs: seq<Val>, j: int): (r: seq<Entry>)
    ensures |r| == |l| + |vs|
    decreases |vs|
  {
    if vs == [] then l else UFold(UInsert(l, vs[0], j), vs[1..], j + 1)
  }

  /** K identity slots. */
  function InitList(k: nat): (r: seq<Entry>)
    ensures |r| == k && forall t :: 0 <= t < k ==> r[t] == Unset
  {
    seq(k, _ => Unset)
  }

  /** The entries (vs[t], j + t) that folding vs offers to the channel. */
  ghost function Offered(vs: seq<Val>, j: int): (r: seq<Entry>)
    ensures |r| == |vs| && forall t :: 0 <= t < |vs| ==> r[t] == Entry(vs[t], Fin(j + t))
  {
    seq(|vs|, t requires 0 <= t < |vs| => Entry(vs[t], Fin(j + t)))
  }

  /** The first offered entry, then the entries offered by the rest of the row. */
  lemma OfferedCons(vs: seq<Val>, j: int)
    requires vs != []
    ensures Offered(vs, j) == [Entry(vs[0], Fin(j))] + Offered(vs[1..], j + 1)
  {
  }

  /** Order by value, ties by index. */
  predicate LexLe(a: Entry, b: Entry) {
    Less(a.value, b.value) || (a.value == b.value && Le(a.index, b.index))
  }

  ghost predicate LexSorted(l: seq<Entry>) {
    forall a, b :: 0 <= a < b < |l| ==> LexLe(l[a], l[b])
  }

  /** Every stored index is a finite index not above j. */
  ghost predicate IndicesUpTo(l: seq<Entry>, j: int) {
    forall t :: 0 <= t < |l| ==> l[t].index.Fin? && l[t].index.x <= j
  }

  /** Order by value then index is in particular order by value. */
  lemma LexSortedIsSorted(l: seq<Entry>)
    requires LexSorted(l)
    ensures Sorted(l)
  {
    forall a, b | 0 <= a < b < |l| ensures Le(l[a].value, l[b].value) {
      assert LexLe(l[a], l[b]);
    }
  }

  /** Inserting j, no smaller than every stored index, keeps the order by value then index. */
  lemma UInsertLexSorted(l: seq<Entry>, x: Val, j: int)
    requires LexSorted(l) && IndicesUpTo(l, j)
    ensures LexSorted(UInsert(l, x, j)) && IndicesUpTo(UInsert(l, x, j), j + 1)
  {
    var p := InsertPos(l, x);
    var u := UInsert(l, x, j);
    LexSortedIsSorted(l);
    UInsertLayout(l, x, j);
    forall a, b | 0 <= a < b < |u| ensures LexLe(u[a], u[b]) {
      if b < p {
        assert LexLe(l[a], l[b]);
      } else if b == p {
        InsertPosSorted(l, x, a);
      } else if a < p {
        assert LexLe(l[a], l[b - 1]);
      } else if a == p {
        assert Less(x, l[b - 1].value);
      } else {
        assert LexLe(l[a - 1], l[b - 1]);
      }
    }
  }

  /** Folding keeps a channel sorted. */
  lemma {:induction false} FoldListSorted(l: seq<Entry>, vs: seq<Val>, j: int)
    requires Sorted(l)
    ensures Sorted(FoldList(l, vs, j))
    decreases |vs|
  {
    if vs != [] {
      InsertSorted(l, vs[0], j);
      FoldListSorted(Insert(l, vs[0], j), vs[1..], j + 1);
    }
  }

  /** The unbounded fold is ordered by value then index and holds exactly the offered entries. */
  lemma UFoldSpec(l: seq<Entry>, vs: seq<Val>, j: int)
    requires LexSorted(l) && IndicesUpTo(l, j)
    ensures LexSorted(UFold(l, vs, j))
    ensures multiset(UFold(l, vs, j)) == multiset(l) + multiset(Offered(vs, j))
  {
    UFoldLexSorted(l, vs, j);
    UFoldMultiset(l, vs, j);
  }

  lemma {:induction false} UFoldLexSorted(l: seq<Entry>, vs: seq<Val>, j: int)
    requires LexSorted(l) && IndicesUpTo(l, j)
    ensures LexSorted(UFold(l, vs, j))
    decreases |vs|
  {
    if vs != [] {
      UInsertLexSorted(l, vs[0], j);
      UFoldLexSorted(UInsert(l, vs[0], j), vs[1..], j + 1);
    }
  }

  lemma {:induction false} UFoldMultiset(l: seq<Entry>, vs: seq<Val>, j: int)
    ensures multiset(UFold(l, vs, j)) == multiset(l) + multiset(Offered(vs, j))
    decreases |vs|
  {
    if vs != [] {
      var e, u, rest := Entry(vs[0], Fin(j)), UInsert(l, vs[0], j), Offered(vs[1..], j + 1);
      UInsertMultiset(l, vs[0], j);
      UFoldMultiset(u, vs[1..], j + 1);
      OfferedCons(vs, j);
      calc {
        multiset(UFold(l, vs, j));
        multiset(UFold(u, vs[1..], j + 1));
        multiset(u) + multiset(rest);
        multiset(l) + multiset{e} + multiset(rest);
        multiset(l) + multiset([e] + rest);
      }
    }
  }

  /** The K-slot fold keeps the first K entries of the unbounded fold. */
  lemma {:induction false} FoldListTruncates(l: seq<Entry>, vs: seq<Val>, j: int, k: nat)
    requires Sorted(l) && k <= |l|
    ensures FoldList(l[..k], vs, j) == UFold(l, vs, j)[..k]
    decreases |vs|
  {
    if vs != [] {
      InsertTruncates(l, vs[0], j, k);
      InsertSorted(l, vs[0], j);
      var u := UInsert(l, vs[0], j);
      assert u[..k] == Insert(l[..k], vs[0], j);
      FoldListTruncates(u, vs[1..], j + 1, k);
    }
  }

  /** Order by value then index is antisymmetric. */
  lemma LexLeAntisymmetric(x: Entry, y: Entry)
    requires LexLe(x, y) && LexLe(y, x)
    ensures x == y
  {
  }

  /** The head of a list ordered by value then index is below every entry of it. */
  lemma LexSortedHead(a: seq<Entry>, e: Entry)
    requires LexSorted(a) && e in multiset(a)
    ensures LexLe(a[0], e)
  {
    var i :| 0 <= i < |a| && a[i] == e;
    if i > 0 { assert LexLe(a[0], a[i]); }
    else { assert Le(e.index, e.index); }
  }

  /** Dropping the head keeps the order and removes one copy of the head from the entries. */
  lemma LexSortedTail(a: seq<Entry>)
    requires LexSorted(a) && a != []
    ensures LexSorted(a[1..]) && multiset(a[1..]) == multiset(a) - multiset{a[0]}
  {
    assert a == [a[0]] + a[1..];
  }

  /** Two lists ordered by value then index that hold the same entries are equal. */
  lemma {:induction false} LexSortedUnique(a: seq<Entry>, b: seq<Entry>)
    requires LexSorted(a) && LexSorted(b) && multiset(a) == multiset(b)
    ensures a == b
    decreases |a|
  {
    assert |a| == |multiset(a)| == |multiset(b)| == |b|;
    if a != [] {
      assert a[0] in multiset(a) && b[0] in multiset(b);
      LexSortedHead(a, b[0]);
      LexSortedHead(b, a[0]);
      LexLeAntisymmetric(a[0], b[0]);
      LexSortedTail(a);
      LexSortedTail(b);
      LexSortedUnique(a[1..], b[1..]);
      assert a == [a[0]] + a[1..] && b == [b[0]] + b[1..];
    }
  }

  /**
   * What arg-k-min selects. Let `sorted` be the identity entries and the offered entries
   * (v[t], t), arranged by value and then by index. Folding v into K identity slots leaves
   * exactly the first K of them: the K smallest values, equal values in order of index.
   */
  lemma FoldSelectsFirstK(k: nat, vs: seq<Val>, sorted: seq<Entry>)
    requires LexSorted(sorted)
    requires multiset(sorted) == multiset(InitList(k) + Offered(vs, 0))
    ensures k <= |sorted|
    ensures FoldList(InitList(k), vs, 0) == sorted[..k]
  {
    var init := InitList(k);
    UFoldSpec(init, vs, 0);
    var u := UFold(init, vs, 0);
    assert multiset(u) == multiset(init + Offered(vs, 0));
    LexSortedUnique(u, sorted);
    assert Sorted(init);
    FoldListTruncates(init, vs, 0, k);
    assert init[..k] == init;
  }

  /** The five insertions of `ThreeSmallestExample`, one by one. */
  lemma ExampleInserts()
    ensures var l1 := [Entry(Fin(5), Fin(0)), Unset, Unset];
      var l2 := [Entry(Fin(1), Fin(1)), Entry(Fin(5), Fin(0)), Unset];
      var l3 := [Entry(Fin(1), Fin(1)), Entry(Fin(5), Fin(0)), Entry(Fin(9), Fin(2))];
      var l4 := [Entry(Fin(1), Fin(1)), Entry(Fin(1), Fin(3)), Entry(Fin(5), Fin(0))];
      && Insert(InitList(3), Fin(5), 0) == l1 && Insert(l1, Fin(1), 1) == l2
      && Insert(l2, Fin(9), 2) == l3 && Insert(l3, Fin(1), 3) == l4 && Insert(l4, Fin(7), 4) == l4
  {
    var l0 := InitList(3);
    assert l0 == [Unset, Unset, Unset];
    var l1 := [Entry(Fin(5), Fin(0)), Unset, Unset];
    var l2 := [Entry(Fin(1), Fin(1)), Entry(Fin(5), Fin(0)), Unset];
    var l3 := [Entry(Fin(1), Fin(1)), Entry(Fin(5), Fin(0)), Entry(Fin(9), Fin(2))];
    var l4 := [Entry(Fin(1), Fin(1)), Entry(Fin(1), Fin(3)), Entry(Fin(5), Fin(0))];
    assert InsertPos(l0, Fin(5)) == 0 by {
      assert InsertPos(l0[..2], Fin(5)) == InsertPos(l0[..2][..1], Fin(5));
    }
    assert Insert(l0, Fin(5), 0) == l1;
    assert InsertPos(l1, Fin(1)) == 0 by {
      assert InsertPos(l1[..2], Fin(1)) == InsertPos(l1[..2][..1], Fin(1));
    }
    assert Insert(l1, Fin(1), 1) == l2;
    assert InsertPos(l2, Fin(9)) == 2 by {
      assert InsertPos(l2[..2], Fin(9)) == 2;
    }
    assert Insert(l2, Fin(9), 2) == l3;
    assert InsertPos(l3, Fin(1)) == 1 by {
      assert InsertPos(l3[..2], Fin(1)) == InsertPos(l3[..2][..1], Fin(1)) == 1;
    }
    assert Insert(l3, Fin(1), 3) == l4;
    assert InsertPos(l4, Fin(7)) == 3;
  }

  /**
   * Arg-k-min with K = 3 over the values 5, 1, 9, 1, 7: the two 1s in index order, then
   * the 5 found at index 0, so the selected indices are 1, 3, 0.
   */
  lemma ThreeSmallestExample()
    ensures FoldList(InitList(3), [Fin(5), Fin(1), Fin(9), Fin(1), Fin(7)], 0)
         == [Entry(Fin(1), Fin(1)), Entry(Fin(1), Fin(3)), Entry(Fin(5), Fin(0))]
  {
    var vs := [Fin(5), Fin(1), Fin(9), Fin(1), Fin(7)];
    var l0 := InitList(3);
    var l1 := [Entry(Fin(5), Fin(0)), Unset, Unset];
    var l2 := [Entry(Fin(1), Fin(1)), Entry(Fin(5), Fin(0)), Unset];
    var l3 := [Entry(Fin(1), Fin(1)), Entry(Fin(5), Fin(0)), Entry(Fin(9), Fin(2))];
    var l4 := [Entry(Fin(1), Fin(1)), Entry(Fin(1), Fin(3)), Entry(Fin(5), Fin(0))];
    ExampleInserts();
    calc {
      FoldList(l0, vs, 0);
      FoldList(l1, vs[1..], 1);
      FoldList(l2, vs[2..], 2);
      FoldList(l3, vs[3..], 3);
      FoldList(l4, vs[4..], 4);
      FoldList(l4, [], 5);
    }
  }
}
