# KeOps reductions, variables and batch helpers in Dafny

This project models four pieces of KeOps, the library that computes reductions of symbolic
kernel formulas `F(i, j)` over one of the two indices:

- the **arg-k-min reduction** (`ArgKMinReduction<F, K>`). For each channel k of the
  formula's output it keeps, in a buffer of width `2*K*D` (D is the formula's width), the
  K smallest values seen so far and the inner indices where they were seen. The output, of
  width `K*D`, holds the indices only;
- the **min+argmin reduction** (`MinArgMinReduction<F>`). For each channel it keeps the
  smallest value and its index in a buffer of width `2*D`, and copies the buffer to the
  output;
- the **leaf variable** `Var<N, DIM, CAT>` of the formula language. This covers its printed
  identifier, evaluation by copying argument N into the output, and substitution. It also
  covers the variables it lists by category and its gradient, plus the aliases `_X`, `_Y`,
  `Param` and `_P`;
- the Python front end's helpers `axis2cat`, `cat2axis`, `max_tuple` and
  `check_broadcasting`.

The element type `TYPE` is `Slots.Val`, which is an integer or +infinity. Index slots hold
`Fin(j)` in the same buffer, as the C++ code stores `j` into `TYPE` slots.

The buffer methods work in place on `array<Val>`. Each is proved equal to a function of the
old buffer:
- in both reductions, `InitializeReduction` equals `Identity` and `ReducePairShort` equals
  `Step`;
- min+argmin's `ReducePair` equals `Merge`; arg-k-min has no `ReducePair`;
- arg-k-min's `FinalizeOutput` equals `Output`, the index half of every slot; min+argmin's
  `FinalizeOutput` copies the whole buffer.

The meaning of those functions is proved separately, channel by channel:
- Min+argmin folded over a sequence of formula outputs gives the minimum and the first index
  where it occurs (`MinArgMin.FoldIsMinArgMin`).
- Arg-k-min folded over a sequence of formula outputs gives the indices of the K first
  entries after sorting by value and then by index. The identity entries `(+inf, 0)` take
  part in that sort (`ArgKMin.FoldOutputsFirstK`).

The modules are:
- `Slots`: the element type and its order;
- `ArgKMinList`: bounded sorted insertion on one channel as a list;
- `ArgKMin`: the buffer layout and the in-place methods;
- `MinArgMin`;
- `Variables`;
- `Utils`;
- `Wrappers`: `Option` and `Result`.

Two properties of the code differ from what one might expect:
- The min+argmin merge keeps the accumulator's index when the two values are equal. So
  `ReducePair` is associative but not commutative on the index channel
  (`MinArgMin.ChanMergeNotCommutative`).
- In arg-k-min, an entry equal to a stored value is inserted after it, and an identity slot
  is displaced by any finite value. For K = 3 over the values 5, 1, 9, 1, 7, the indices
  come out as 1, 3, 0 (`ArgKMinList.ThreeSmallestExample`).

## Model

| member | source | states |
|---|---|---|
| MinArgMin.ChanMerge | keops/core/reductions/minargmin.h:56-61 | the merged entry is one of the two inputs, its value is at most both values, and the accumulator's entry is kept unless the other value is strictly smaller |
| MinArgMin.Identity | keops/core/reductions/minargmin.h:29-37 | the initial buffer has width 2*D, and every channel holds (+inf, 0) |
| MinArgMin.Step | keops/core/reductions/minargmin.h:41-50 | each channel takes (xi[k], j) exactly when xi[k] is strictly smaller than its value, and is otherwise unchanged |
| MinArgMin.Merge | keops/core/reductions/minargmin.h:53-63 | each channel of the result is the channel merge of the two buffers' channels |
| MinArgMin.ChanFoldSpec | keops/core/reductions/minargmin.h:41-50 | after a fold, the value is the minimum of the start value and all values offered; the index is the start index when nothing smaller arrived, and otherwise the first position of that minimum |
| MinArgMin.FoldFromUnsetIsMinArgMin | keops/core/reductions/minargmin.h:29-50 | from the identity, a fold gives the least value and the first index where it occurs, or (+inf, 0) when no value is finite |
| MinArgMin.ChanFoldIsMerge | keops/core/reductions/minargmin.h:40-63 | folding into an accumulator equals merging it with the fold from the identity |
| MinArgMin.ChanFoldAppend | keops/core/reductions/minargmin.h:41-50 | folding a concatenation is folding the first part, then the second part from the next index |
| MinArgMin.ChanChunksCombine | keops/core/reductions/minargmin.h:53-63 | two chunks folded separately and combined with ReducePair give the fold of the whole sequence |
| MinArgMin.ChanMergeLaws | keops/core/reductions/minargmin.h:56-61 | merge is associative; it is commutative on values, and fully commutative when the values differ |
| MinArgMin.ChanMergeNotCommutative | keops/core/reductions/minargmin.h:57 | with equal values, the merge keeps the first argument's index, so the order of arguments matters |
| MinArgMin.ChannelsDetermine | keops/core/reductions/minargmin.h:20-22 | a 2*D buffer is determined by its D (value, index) channels |
| MinArgMin.FoldChannels | keops/core/reductions/minargmin.h:43-48 | folding whole buffers folds each channel on its own column, independently of the others |
| MinArgMin.FoldChunksCombine | keops/core/reductions/minargmin.h:40-63 | buffer-level chunking: folding vs then ws from the identity equals Merge of the two separate folds |
| MinArgMin.FoldIsMinArgMin | keops/core/reductions/minargmin.h:29-50 | after folding rows from the identity, channel k holds the minimum of column k and its first index |
| MinArgMin.InitializeReduction | keops/core/reductions/minargmin.h:30-37 | the buffer becomes Identity: +inf in the D value slots, 0 in the D index slots |
| MinArgMin.ReducePairShort | keops/core/reductions/minargmin.h:41-50 | the buffer becomes Step of its old contents |
| MinArgMin.ReducePair | keops/core/reductions/minargmin.h:54-63 | the buffer becomes Merge of its old contents with the other buffer |
| MinArgMin.FinalizeOutput | keops/core/reductions/minargmin.h:66-71 | the output is a copy of all 2*D slots of the buffer |
| ArgKMinList.InsertPos | keops/core/reductions/argkmin.h:53 | the backward scan stops at the first slot p whose predecessor is not greater than x; every slot from p on is greater than x |
| ArgKMinList.InsertUnchangedIff | keops/core/reductions/argkmin.h:53-61 | a channel is unchanged exactly when it is empty or x is not below its last value |
| ArgKMinList.InsertPosSorted | keops/core/reductions/argkmin.h:53 | on a sorted channel, a slot is greater than x exactly when it lies at or after the insertion point |
| ArgKMinList.InsertPlacement | keops/core/reductions/argkmin.h:53-61 | when x is below the last value, (x, j) lands at the insertion point, earlier slots stay, and later ones shift down by one slot, the last one falling off |
| ArgKMinList.InsertTieBreak | keops/core/reductions/argkmin.h:53 | an equal stored value stays before the new entry (the comparison is strict) |
| ArgKMinList.InsertSorted | keops/core/reductions/argkmin.h:51-63 | insertion keeps a channel sorted by value |
| ArgKMinList.InsertMultiset | keops/core/reductions/argkmin.h:53-61 | when x enters, the channel gains (x, j) and loses exactly its old last entry |
| ArgKMinList.UInsertMultiset | keops/core/reductions/argkmin.h:53-61 | unbounded insertion adds exactly (x, j) |
| ArgKMinList.InsertTruncates | keops/core/reductions/argkmin.h:53-61 | bounded insertion into the first k slots equals the first k slots of the unbounded insertion |
| ArgKMinList.UInsertLexSorted | keops/core/reductions/argkmin.h:53 | inserting a fresh, larger index keeps a list sorted by value and then by index |
| ArgKMinList.FoldListSorted | keops/core/reductions/argkmin.h:47-65 | any sequence of insertions keeps a sorted channel sorted |
| ArgKMinList.UFoldSpec | keops/core/reductions/argkmin.h:47-65 | unbounded folding is sorted by value and then by index, and holds exactly the start entries plus every offered (v[t], j+t) |
| ArgKMinList.FoldListTruncates | keops/core/reductions/argkmin.h:47-65 | the bounded fold is the first K entries of the unbounded fold |
| ArgKMinList.LexSortedUnique | keops/core/reductions/argkmin.h:53 | two lists sorted by value and then by index, holding the same entries, are equal |
| ArgKMinList.FoldSelectsFirstK | keops/core/reductions/argkmin.h:33-65 | a channel folded from K identity entries holds the first K entries of the sorted arrangement of the identity entries and the offered entries |
| ArgKMinList.ThreeSmallestExample | keops/core/reductions/argkmin.h:53-61 | K = 3 over values 5, 1, 9, 1, 7 yields (1,1), (1,3), (5,0) |
| ArgKMin.SplitPos | keops/core/reductions/argkmin.h:23-25 | every position of the 2*K*D buffer is k + h*D + 2*D*s for exactly one channel k, half h and slot s |
| ArgKMin.SplitOutPos | keops/core/reductions/argkmin.h:72-73 | every output position is k + D*s for exactly one channel k and slot s |
| ArgKMin.ChansDetermine | keops/core/reductions/argkmin.h:23-25 | a 2*K*D buffer is determined by its D channels of K (value, index) entries |
| ArgKMin.ChanUpdate | keops/core/reductions/argkmin.h:56-60 | writing the value and index of one slot changes that entry of that channel only |
| ArgKMin.OnlyChannelPositionsDiffer | keops/core/reductions/argkmin.h:51-63 | when only channel k changes, every position not congruent to k or k+D modulo 2*D keeps its value |
| ArgKMin.Identity | keops/core/reductions/argkmin.h:33-41 | the initial buffer has width 2*K*D |
| ArgKMin.IdentityChan | keops/core/reductions/argkmin.h:35-39 | every channel of the initial buffer holds K entries (+inf, 0) |
| ArgKMin.StepChan | keops/core/reductions/argkmin.h:51-63 | one step inserts xi[k] at index j into channel k, for each channel independently |
| ArgKMin.OutputAt | keops/core/reductions/argkmin.h:71-73 | output slot k + D*s holds the index stored in slot s of channel k |
| ArgKMin.OutputOfIdentity | keops/core/reductions/argkmin.h:33-41 | with nothing folded, every output index is 0 |
| ArgKMin.OutputChan | keops/core/reductions/argkmin.h:71-73 | channel k of the output lists the indices of channel k of the buffer, in slot order |
| ArgKMin.FoldChan | keops/core/reductions/argkmin.h:47-65 | folding whole buffers folds each channel on its own column, independently |
| ArgKMin.FoldOutputsFirstK | keops/core/reductions/argkmin.h:10-12 | after folding rows from the identity, output slot k + D*s holds the index of the s-th entry of channel k's sorted arrangement |
| ArgKMin.FoldKeepsChannelsSorted | keops/core/reductions/argkmin.h:47-65 | every channel's values stay in non-decreasing slot order |
| ArgKMin.InitializeReduction | keops/core/reductions/argkmin.h:33-41 | the buffer becomes Identity, and every channel holds K identity entries |
| ArgKMin.InsertIntoChannel | keops/core/reductions/argkmin.h:52-62 | the backward shifting loop leaves channel k as Insert says and every other channel unchanged |
| ArgKMin.ReducePairShort | keops/core/reductions/argkmin.h:47-65 | the buffer becomes Step of its old contents |
| ArgKMin.FinalizeOutput | keops/core/reductions/argkmin.h:67-75 | the output becomes Output of the buffer: the index half of every slot |
| ArgKMin.DiffTIsZero | keops/core/reductions/argkmin.h:77-78 | the gradient is a zero reduction of V's width and category, whatever the incoming gradient |
| Slots.LessIsStrictTotalOrder | keops/core/reductions/argkmin.h:53 | the strict comparison of TYPE, with +inf above every finite value, is a strict total order |
| Variables.NatText | keops/core/autodiff/Var.h:48 | a number prints as decimal digits with no leading zero |
| Variables.ParseNatText | keops/core/autodiff/Var.h:48 | the printed digits read back as the number |
| Variables.ParseIntText | keops/core/autodiff/Var.h:48 | the printed signed number reads back as N |
| Variables.IdTextInjective | keops/core/autodiff/Var.h:39-49 | two identifiers are equal exactly when the category letters are equal and the numbers are equal |
| Variables.StringStream.constructor | keops/core/autodiff/Var.h:39 | a new stream is empty |
| Variables.StringStream.Write | keops/core/autodiff/Var.h:41-48 | writing appends the text to the stream |
| Variables.PrintId | keops/core/autodiff/Var.h:39-49 | appends x, y, p or z by category, then N |
| Variables.ReplaceSpec | keops/core/autodiff/Var.h:55-56 | replacing this variable gives B; replacing anything else leaves the variable |
| Variables.VarsSpec | keops/core/autodiff/Var.h:61-66 | the variable is listed exactly for its own category, and it is its only sub-formula |
| Variables.DiffTSpec | keops/core/autodiff/Var.h:83-87 | the gradient is the incoming gradient when V is this variable, and zero of V's width otherwise |
| Variables.IndVal | keops/core/autodiff/Var.h:76-77 | the result is the first position of N in INDS |
| Variables.Eval | keops/core/autodiff/Var.h:74-80 | out[0..DIM) receives the first DIM entries of the argument at the first position of N, and nothing else in out changes |
| Variables.StandardVariables | keops/core/autodiff/Var.h:98-108 | _X, _Y and Param/_P have categories 0, 1 and 2, print as x, y and p followed by N, and are distinct |
| Utils.AxisToCat | pykeops/common/utils.py:17-27 | accepts exactly axes 0 and 1 and swaps them; other axes raise the axis error |
| Utils.CatToAxis | pykeops/common/utils.py:30-40 | accepts exactly categories 0 and 1 and swaps them; others raise the category error |
| Utils.AxisCatRoundTrip | pykeops/common/utils.py:17-40 | the two conversions accept the same inputs and undo each other |
| Utils.MaxTuple | pykeops/common/utils.py:128-129 | the result has the shorter length, and each entry is one of the pair and at least both |
| Utils.MaxTupleCommutes | pykeops/common/utils.py:128-129 | the order of arguments does not matter |
| Utils.MaxTupleIdempotent | pykeops/common/utils.py:128-129 | the maximum of a shape with itself is that shape |
| Utils.MaxTupleLeast | pykeops/common/utils.py:128-129 | every common upper bound bounds the result |
| Utils.Ones | pykeops/common/utils.py:141-142 | `(1,) * k` has max(k, 0) entries, all 1 |
| Utils.AllCompatible | pykeops/common/utils.py:144-146 | the loop finds no incompatible pair exactly when every zipped pair is compatible |
| Utils.PaddedAligned | pykeops/common/utils.py:141-142 | padding aligns a shape to the right in a row as long as the longer shape |
| Utils.CheckBroadcastingNone | pykeops/common/utils.py:136-139 | an absent shape yields the other shape |
| Utils.CheckBroadcastingSpec | pykeops/common/utils.py:132-148 | the check fails exactly when some right-aligned pair holds two different sizes, neither of them 1; otherwise it returns the entrywise maximum at the longer length |
| Utils.CheckBroadcastingSymmetric | pykeops/common/utils.py:132-148 | the verdict and the result do not depend on argument order |
| Utils.CheckBroadcastingIdempotent | pykeops/common/utils.py:132-148 | a shape broadcasts with itself to itself |
| Utils.CheckBroadcastingBroadcasts | pykeops/common/utils.py:132-148 | for sizes of at least 1, each input broadcasts to the result |
| Utils.EmptyBatchTakesMax | pykeops/common/utils.py:144-148 | the shapes (0,) and (1,) are accepted and give (1,) |

## Left out

- Floating point: `TYPE` is an integer or +infinity. NaN, rounding and `half2` are not modelled.
- Precision of stored indices: the source stores `j` into `TYPE` slots and reads indices back through `int indtmpl`. The model keeps exact integers, so it does not capture the precision loss of large indices in a float buffer.
- Aliasing between buffers: in the reduction methods the read-only inputs (`xi`, the other buffer, and the buffer read by `FinalizeOutput`) are values (`seq`). The model therefore does not cover them aliasing the array being written. `Variables.Eval` does allow its argument arrays to alias `out`.
- The unused `px` and `i` arguments of the `FinalizeOutput` operators are dropped.
- `Eval(args...)` of both reductions forwards to a convolution scheme (`CONV::Eval`). The schemes are not part of this model.
- `Reduction<F, tagI>`: the base class and the `tagI` choice of reduction index are not part of this model. The formula `F` is only its output width D and its outputs.
- Arg-k-min's gradient `ZeroReduction`, and Var's `IdOrZero`, `Get`, `IndVal_Alias` and `univpack`, are defined outside the core. They are modelled from how they are used there.
- The macros `Var`, `Vi`, `Vj` and `Pm`, which wrap the variables into the Python-side namespace type, are not modelled.
- Min+argmin has no gradient, so there is nothing to model.
- Utils.Message: the text of the broadcasting error is not formatted with the two shapes.
- The rest of `utils.py` (file locks, paths, build helpers), `keops_io.py`, `link_autodiff.cpp` and the LDDMM example are outside this model.
- Utils.CheckBroadcastingBroadcasts: stated only for batch sizes of at least 1. With a size 0, the maximum replaces 0 by the other size (see `Utils.EmptyBatchTakesMax`).
- ArgKMin.InsertIntoChannel: states the frame as "other channels unchanged". The position-level frame is `ArgKMin.OnlyChannelPositionsDiffer`.
- Integer widths: `K`, `DIM` and the loop indices are unbounded naturals. Overflow of `K*2*DIM` in `int` is not modelled.
