/** The advanced-index planner: a tensor and a list of optional index tensors become a
    restrided view, reshaped indexers, and the sizes and byte strides of the indexed
    dimensions. The planner is compared with naive multi-dimensional indexing. */
module AdvancedIndexing {
  import opened Options
  import opened Shapes
  import opened Picking

  datatype DType = Int32 | Int64 | UInt8 | Boolean | OtherType

  datatype IndexError =
    BadIndexType | MaskMismatch | NotBroadcastable | WrongDevice | NotInt32 | EmptyDimension

  type Result<+T> = Options.Result<T, IndexError>

  /** An index tensor; its values are listed in row-major order. */
  datatype RawTensor = RawTensor(dtype: DType, device: nat, sizes: seq<nat>, data: seq<int>) {
    predicate IsMask() { dtype.UInt8? || dtype.Boolean? }
  }

  type Tensor = t: RawTensor | |t.data| == Product(t.sizes) witness RawTensor(Int32, 0, [0], [])

  datatype Indexer = Undefined | Defined(tensor: Tensor)

  /** A strided tensor; the offset and strides count elements. */
  datatype RawView = RawView(device: nat, elementSize: nat, offset: int, sizes: seq<nat>, strides: seq<int>)

  type View = v: RawView | |v.strides| == |v.sizes| witness RawView(0, 1, 0, [], [])

  datatype AdvancedIndex = AdvancedIndex(
    src: View, indices: seq<Tensor>, indexedSizes: seq<nat>, indexedStrides: seq<int>,
    dimsBefore: nat, dimsAfter: nat)

  function At(t: Tensor, c: seq<nat>): (v: int) {
    if InBounds(t.sizes, c) then
      RavelBound(t.sizes, c);
      t.data[Ravel(t.sizes, c)]
    else 0
  }

  /** Which entries of an index list are defined. */
  function Defs(ts: seq<Indexer>): (r: seq<bool>)
    ensures |r| == |ts|
  {
    if ts == [] then [] else [ts[0].Defined?] + Defs(ts[1..])
  }

  /** The defined entries, in order. */
  function Chosen(ts: seq<Indexer>): (r: seq<Tensor>) {
    if ts == [] then []
    else (if ts[0].Defined? then [ts[0].tensor] else []) + Chosen(ts[1..])
  }

  // ------------------------------------------------------------ naive indexing

  function Wrap(v: int, n: nat): int { if v < 0 then v + n else v }

  /** Per dimension, the wrapped index value at broadcast coordinate `b` (0 where undefined). */
  function Values(ts: seq<Indexer>, sizes: seq<nat>, b: seq<nat>): (r: seq<int>)
    requires |ts| == |sizes|
    ensures |r| == |ts|
  {
    if ts == [] then []
    else [if ts[0].Undefined? then 0 else ValueAt(ts[0].tensor, sizes[0], b)] + Values(ts[1..], sizes[1..], b)
  }

  function ValueAt(t: Tensor, size: nat, b: seq<nat>): int {
    Wrap(At(t, BroadcastCoord(t.sizes, b)), size)
  }

  /** The set flags form an interval. */
  ghost predicate Adjacent(defs: seq<bool>) {
    forall a, b, c :: 0 <= a < b < c < |defs| && defs[a] && defs[c] ==> defs[b]
  }

  /** Number of undefined entries in front of the first defined one. */
  function Lead(defs: seq<bool>): (p: nat)
    ensures p <= |defs|
  {
    if defs == [] || defs[0] then 0 else 1 + Lead(defs[1..])
  }

  /** Where the broadcast index dimensions sit in the output: in place when the indices are
      adjacent, in front otherwise. */
  function InsertAt(defs: seq<bool>, adjacent: bool): nat {
    if adjacent then Lead(defs) else 0
  }

  /** The coordinate that naive indexing reads: a defined dimension takes its index value, an
      undefined one takes the next remaining output coordinate. */
  function SelectedCoord(defs: seq<bool>, values: seq<int>, rest: seq<nat>): (c: seq<int>)
    requires |defs| == |values| && |rest| == |Pick(defs, values, false)|
    ensures |c| == |defs|
  {
    if defs == [] then []
    else if defs[0] then [values[0]] + SelectedCoord(defs[1..], values[1..], rest)
    else [rest[0]] + SelectedCoord(defs[1..], values[1..], rest[1..])
  }

  /** Shape of the result of naive indexing, `shape` being the broadcast shape of the indices. */
  function NaiveShape(defs: seq<bool>, adjacent: bool, sizes: seq<nat>, shape: seq<nat>): (r: seq<nat>)
    requires |defs| == |sizes|
  {
    var rest := Pick(defs, sizes, false);
    var p := InsertAt(defs, adjacent);
    LeadWithinRest(defs, sizes);
    rest[..p] + shape + rest[p..]
  }

  lemma {:induction false} LeadWithinRest<T>(defs: seq<bool>, xs: seq<T>)
    requires |defs| == |xs|
    ensures Lead(defs) <= |Pick(defs, xs, false)|
  {
    if defs != [] {
      LeadWithinRest(defs[1..], xs[1..]);
    }
  }

  /** Every index value is in range for its dimension, counting negative ones from the end. */
  predicate ValuesInRange(ts: seq<Indexer>, sizes: seq<nat>, b: seq<nat>)
    requires |ts| == |sizes|
  {
    ts != [] ==>
      && (ts[0].Defined? ==>
            -sizes[0] <= At(ts[0].tensor, BroadcastCoord(ts[0].tensor.sizes, b)) < sizes[0])
      && ValuesInRange(ts[1..], sizes[1..], b)
  }

  predicate CoordInBounds(sizes: seq<nat>, c: seq<int>) {
    |c| == |sizes| && (sizes == [] || (0 <= c[0] < sizes[0] && CoordInBounds(sizes[1..], c[1..])))
  }

  /** With in-range index values the naive coordinate lies inside the tensor. */
  lemma {:induction false} SelectedCoordInBounds(ts: seq<Indexer>, sizes: seq<nat>, b: seq<nat>, rest: seq<nat>)
    requires |ts| == |sizes| && ValuesInRange(ts, sizes, b) && InBounds(Pick(Defs(ts), sizes, false), rest)
    ensures |rest| == |Pick(Defs(ts), Values(ts, sizes, b), false)|
    ensures CoordInBounds(sizes, SelectedCoord(Defs(ts), Values(ts, sizes, b), rest))
  {
    PickLength(Defs(ts), sizes, Values(ts, sizes, b));
    if ts != [] {
      assert Defs(ts)[1..] == Defs(ts[1..]) && Values(ts, sizes, b)[1..] == Values(ts[1..], sizes[1..], b);
      if ts[0].Defined? {
        assert Pick(Defs(ts), sizes, false) == Pick(Defs(ts[1..]), sizes[1..], false);
        SelectedCoordInBounds(ts[1..], sizes[1..], b, rest);
      } else {
        assert Pick(Defs(ts), sizes, false)[1..] == Pick(Defs(ts[1..]), sizes[1..], false);
        SelectedCoordInBounds(ts[1..], sizes[1..], b, rest[1..]);
      }
    }
  }

  // --------------------------------------------------- adjacency of the indices

  /** std::find_if over the half-open range [lo, hi): the first match, or hi. */
  function FindIf(defs: seq<bool>, lo: nat, hi: nat, want: bool): (r: nat)
    requires lo <= hi <= |defs|
    ensures lo <= r <= hi
    ensures forall k :: lo <= k < r ==> defs[k] != want
    ensures r < hi ==> defs[r] == want
    decreases hi - lo
  {
    if lo == hi || defs[lo] == want then lo else FindIf(defs, lo + 1, hi, want)
  }

  /** base() of the reverse find: one past the last set flag, or 0. */
  function AfterLast(defs: seq<bool>, n: nat): (r: nat)
    requires n <= |defs|
    ensures r <= n
    ensures forall k :: r <= k < n ==> !defs[k]
    ensures r > 0 ==> defs[r - 1]
  {
    if n == 0 || defs[n - 1] then n else AfterLast(defs, n - 1)
  }

  predicate HasContiguousSubspace(defs: seq<bool>)
    requires true in defs
  {
    var start := FindIf(defs, 0, |defs|, true);
    var stop := AfterLast(defs, |defs|);
    start <= stop && FindIf(defs, start, stop, false) == stop
  }

  lemma ContiguousIffAdjacent(defs: seq<bool>)
    requires true in defs
    ensures HasContiguousSubspace(defs) <==> Adjacent(defs)
  {
    var start, stop := FindIf(defs, 0, |defs|, true), AfterLast(defs, |defs|);
    assert start < stop && defs[start] && defs[stop - 1];
    var gap := FindIf(defs, start, stop, false);
    if gap < stop {
      assert start < gap < stop - 1 && !defs[gap];
    }
  }

  function Count(defs: seq<bool>): (n: nat)
    ensures n <= |defs|
  {
    if defs == [] then 0 else (if defs[0] then 1 else 0) + Count(defs[1..])
  }

  lemma {:induction false} CountIsPicked<T>(defs: seq<bool>, xs: seq<T>)
    requires |defs| == |xs|
    ensures |Pick(defs, xs, true)| == Count(defs) && |Pick(defs, xs, false)| == |defs| - Count(defs)
  {
    if defs != [] {
      CountIsPicked(defs[1..], xs[1..]);
    }
  }

  lemma {:induction false} LeadAndCount(defs: seq<bool>)
    ensures Lead(defs) + Count(defs) <= |defs|
    ensures true in defs <==> Count(defs) > 0
  {
    if defs != [] {
      LeadAndCount(defs[1..]);
      assert defs == [defs[0]] + defs[1..];
    }
  }

  lemma {:induction false} NoneSet(defs: seq<bool>)
    requires Count(defs) == 0
    ensures defs == Repeat(false, |defs|)
  {
    if defs != [] {
      NoneSet(defs[1..]);
    }
  }

  /** Adjacent flags are one block. */
  lemma {:induction false} AdjacentIsBlock(defs: seq<bool>)
    requires Adjacent(defs) && Count(defs) > 0
    ensures Lead(defs) + Count(defs) <= |defs|
    ensures defs == Block(Lead(defs), Count(defs), |defs| - Lead(defs) - Count(defs))
  {
    LeadAndCount(defs);
    var tail := defs[1..];
    TailAdjacent(defs);
    if !defs[0] {
      AdjacentIsBlock(tail);
    } else if Count(tail) == 0 {
      NoneSet(tail);
      assert Block(0, 0, |tail|) == tail;
    } else {
      SecondSet(defs);
      AdjacentIsBlock(tail);
    }
  }

  lemma TailAdjacent(defs: seq<bool>)
    requires Adjacent(defs) && defs != []
    ensures Adjacent(defs[1..])
  {
    var tail := defs[1..];
    forall a, b, c | 0 <= a < b < c < |tail| && tail[a] && tail[c] ensures tail[b] {
      assert defs[a + 1] && defs[c + 1];
    }
  }

  lemma SecondSet(defs: seq<bool>)
    requires Adjacent(defs) && |defs| > 1 && defs[0] && Count(defs[1..]) > 0
    ensures defs[1]
  {
    LeadAndCount(defs[1..]);
    var c :| 0 <= c < |defs[1..]| && defs[1..][c];
    assert defs[c + 1];
  }

  lemma {:induction false} LeadOfBlock(p: nat, k: nat, m: nat)
    requires k > 0
    ensures Lead(Block(p, k, m)) == p && Count(Block(p, k, m)) == k
    decreases p + k
  {
    if p > 0 {
      LeadOfBlock(p - 1, k, m);
    } else if k > 1 {
      LeadOfBlock(0, k - 1, m);
    } else {
      CountRepeatFalse(m);
    }
  }

  lemma {:induction false} CountRepeatFalse(m: nat)
    ensures Count(Repeat(false, m)) == 0
  {
    if m > 0 {
      CountRepeatFalse(m - 1);
    }
  }

  // ------------------------------------------------------------ mask expansion

  /** Coordinates of the non-zero entries from row-major position `from` on (`nonzero`). */
  function NonzeroFrom(sizes: seq<nat>, data: seq<int>, from: nat): (rows: seq<seq<nat>>)
    requires |data| == Product(sizes) && from <= |data|
    decreases |data| - from
  {
    if from == |data| then []
    else (if data[from] != 0 then [Unravel(sizes, from)] else []) + NonzeroFrom(sizes, data, from + 1)
  }

  function MaskRows(mask: Tensor): (rows: seq<seq<nat>>) {
    NonzeroFrom(mask.sizes, mask.data, 0)
  }

  function Column(rows: seq<seq<nat>>, j: nat): (r: seq<int>)
    ensures |r| == |rows|
  {
    if rows == [] then [] else [if j < |rows[0]| then rows[0][j] else 0] + Column(rows[1..], j)
  }

  /** Column `j` of the non-zero coordinates, an int64 index. */
  function MaskColumn(mask: Tensor, j: nat): (t: Tensor) {
    var rows := MaskRows(mask);
    assert Product([|rows|]) == |rows| * Product([]);
    RawTensor(Int64, mask.device, [|rows|], Column(rows, j))
  }

  function MaskColumnsFrom(mask: Tensor, j: nat): (ts: seq<Indexer>)
    requires j <= |mask.sizes|
    ensures |ts| == |mask.sizes| - j
    decreases |mask.sizes| - j
  {
    if j == |mask.sizes| then [] else [Defined(MaskColumn(mask, j))] + MaskColumnsFrom(mask, j + 1)
  }

  /** The rows of the columns are exactly the true positions, once each, in row-major order. */
  lemma MaskRowsAreTruePositions(mask: Tensor, c: seq<nat>)
    requires InBounds(mask.sizes, c)
    ensures At(mask, c) != 0 <==> c in MaskRows(mask)
    ensures Sorted(mask.sizes, MaskRows(mask), 0)
  {
    NonzeroFromIsSorted(mask.sizes, mask.data, 0);
    NonzeroFromIsComplete(mask.sizes, mask.data, 0, c);
  }

  /** Rows are in bounds and strictly increase in row-major position, starting at `from`. */
  ghost predicate Sorted(sizes: seq<nat>, rows: seq<seq<nat>>, from: nat) {
    rows == [] || (InBounds(sizes, rows[0]) && from <= Ravel(sizes, rows[0]) && Sorted(sizes, rows[1..], Ravel(sizes, rows[0]) + 1))
  }

  lemma SortedWeaken(sizes: seq<nat>, rows: seq<seq<nat>>, from: nat)
    requires Sorted(sizes, rows, from + 1)
    ensures Sorted(sizes, rows, from)
  {
  }

  lemma {:induction false} NonzeroFromIsSorted(sizes: seq<nat>, data: seq<int>, from: nat)
    requires |data| == Product(sizes) && from <= |data|
    ensures Sorted(sizes, NonzeroFrom(sizes, data, from), from)
    decreases |data| - from
  {
    if from < |data| {
      var tail := NonzeroFrom(sizes, data, from + 1);
      NonzeroFromIsSorted(sizes, data, from + 1);
      RavelUnravel(sizes, from);
      SortedWeaken(sizes, tail, from);
      if data[from] != 0 {
        assert NonzeroFrom(sizes, data, from)[1..] == tail;
      } else {
        assert NonzeroFrom(sizes, data, from) == tail;
      }
    }
  }

  lemma {:induction false} NonzeroFromIsComplete(sizes: seq<nat>, data: seq<int>, from: nat, c: seq<nat>)
    requires |data| == Product(sizes) && from <= |data| && InBounds(sizes, c)
    ensures Ravel(sizes, c) < |data|
    ensures c in NonzeroFrom(sizes, data, from) <==> from <= Ravel(sizes, c) && data[Ravel(sizes, c)] != 0
    decreases |data| - from
  {
    RavelBound(sizes, c);
    if from < |data| {
      NonzeroFromIsComplete(sizes, data, from + 1, c);
      RavelUnravel(sizes, from);
      UnravelRavel(sizes, c);
    }
  }

  /** The mask covers existing dimensions of the tensor, starting at `at`, with equal sizes. */
  predicate MaskFits(sizes: seq<nat>, at: nat, mask: seq<nat>)
    decreases |mask|
  {
    mask == [] || (at < |sizes| && mask[0] == sizes[at] && MaskFits(sizes, at + 1, mask[1..]))
  }

  /** Masks are replaced by their columns, other indices are kept in order. */
  function Expanded(sizes: seq<nat>, orig: seq<Indexer>, done: seq<Indexer>): (r: Result<seq<Indexer>>)
    decreases |orig|
  {
    if orig == [] then Ok(done)
    else if orig[0].Defined? && orig[0].tensor.IsMask() then
      if MaskFits(sizes, |done|, orig[0].tensor.sizes)
      then Expanded(sizes, orig[1..], done + MaskColumnsFrom(orig[0].tensor, 0))
      else Err(MaskMismatch)
    else Expanded(sizes, orig[1..], done + [orig[0]])
  }

  method ExpandTensors(self: View, indices: seq<Indexer>) returns (r: Result<seq<Indexer>>)
    ensures r == Expanded(self.sizes, indices, [])
  {
    var result: seq<Indexer> := [];
    for i := 0 to |indices|
      invariant Expanded(self.sizes, indices, []) == Expanded(self.sizes, indices[i..], result)
    {
      var index := indices[i];
      assert indices[i..][0] == index && indices[i..][1..] == indices[i + 1..];
      if index.Defined? && index.tensor.IsMask() {
        var fits := CheckMask(self.sizes, |result|, index.tensor.sizes);
        if !fits {
          return Err(MaskMismatch);
        }
        result := AppendColumns(result, index.tensor);
      } else {
        result := result + [index];
      }
    }
    return Ok(result);
  }

  method CheckMask(sizes: seq<nat>, at: nat, mask: seq<nat>) returns (fits: bool)
    ensures fits == MaskFits(sizes, at, mask)
  {
    for j := 0 to |mask|
      invariant MaskFits(sizes, at, mask) == MaskFits(sizes, at + j, mask[j..])
    {
      if at + j >= |sizes| || mask[j] != sizes[at + j] {
        return false;
      }
      assert mask[j..][1..] == mask[j + 1..];
    }
    return true;
  }

  method AppendColumns(done: seq<Indexer>, mask: Tensor) returns (result: seq<Indexer>)
    ensures result == done + MaskColumnsFrom(mask, 0)
  {
    result := done;
    for j := 0 to |mask.sizes|
      invariant result + MaskColumnsFrom(mask, j) == done + MaskColumnsFrom(mask, 0)
    {
      result := result + [Defined(MaskColumn(mask, j))];
    }
  }

  /** Without masks nothing changes. */
  lemma {:induction false} ExpandedWithoutMasks(sizes: seq<nat>, orig: seq<Indexer>, done: seq<Indexer>)
    requires forall t :: t in orig && t.Defined? ==> !t.tensor.IsMask()
    ensures Expanded(sizes, orig, done) == Ok(done + orig)
    decreases |orig|
  {
    if orig == [] {
      assert done + orig == done;
    } else {
      ExpandedWithoutMasks(sizes, orig[1..], done + [orig[0]]);
      assert done + [orig[0]] + orig[1..] == done + orig;
    }
  }

  /** The index covers at least one dimension (a mask of rank 0 covers none). */
  predicate Indexes(t: Indexer) {
    t.Defined? && !(t.tensor.IsMask() && t.tensor.sizes == [])
  }

  /** Expansion keeps what is done, never loses an index, and outgrows the list only by way of
      an int64 column inside the tensor's rank. */
  lemma {:induction false} ExpandedGrowth(sizes: seq<nat>, orig: seq<Indexer>, done: seq<Indexer>)
    requires Expanded(sizes, orig, done).Ok?
    ensures var e := Expanded(sizes, orig, done).value;
      && done <= e
      && (|e| > |done| + |orig| ==>
            exists k :: 0 <= k < |sizes| && k < |e| && e[k].Defined? && e[k].tensor.dtype.Int64?)
      && ((exists t :: t in orig && Indexes(t)) ==> exists t :: t in e && t.Defined?)
    decreases |orig|
  {
    if orig != [] {
      var added := if orig[0].Defined? && orig[0].tensor.IsMask() then MaskColumnsFrom(orig[0].tensor, 0) else [orig[0]];
      ExpandedGrowth(sizes, orig[1..], done + added);
      var e := Expanded(sizes, orig, done).value;
      if added != [] {
        assert e[|done|] == (done + added)[|done|] == added[0];
      }
      assert orig == [orig[0]] + orig[1..];
    }
  }

  // ------------------------------------------------- broadcasting the indices

  /** The shape all index tensors broadcast to. */
  function CommonShape(ts: seq<Tensor>, acc: seq<nat>): (r: Option<seq<nat>>) {
    if ts == [] then Some(acc)
    else
      match InferSize(acc, ts[0].sizes)
      case None => None
      case Some(next) => CommonShape(ts[1..], next)
  }

  predicate AllExpandable(ts: seq<Tensor>, shape: seq<nat>) {
    ts == [] || (Expandable(ts[0].sizes, shape) && AllExpandable(ts[1..], shape))
  }

  lemma {:induction false} CommonShapeExpands(ts: seq<Tensor>, acc: seq<nat>)
    requires CommonShape(ts, acc).Some?
    ensures Expandable(acc, CommonShape(ts, acc).value) && AllExpandable(ts, CommonShape(ts, acc).value)
  {
    if ts == [] {
      assert acc[0..] == acc;
      FitsByIndex(acc, acc);
    } else {
      var shape := CommonShape(ts, acc).value;
      var next := InferSize(acc, ts[0].sizes).value;
      CommonShapeExpands(ts[1..], next);
      InferSizeExpands(acc, ts[0].sizes);
      ExpandableTransitive(acc, next, shape);
      ExpandableTransitive(ts[0].sizes, next, shape);
    }
  }

  /** Values of `t` expanded to `shape`, in row-major order. */
  function ExpandedData(t: Tensor, shape: seq<nat>): (r: seq<int>)
    ensures |r| == Product(shape)
  {
    seq(Product(shape), k requires 0 <= k < Product(shape) => At(t, BroadcastCoord(t.sizes, Unravel(shape, k))))
  }

  function ExpandTo(t: Tensor, shape: seq<nat>): (r: Tensor) {
    RawTensor(t.dtype, t.device, shape, ExpandedData(t, shape))
  }

  /** An expanded tensor reads the same values. */
  lemma ExpandToAt(t: Tensor, shape: seq<nat>, b: seq<nat>, size: nat)
    requires InBounds(shape, b)
    ensures ValueAt(ExpandTo(t, shape), size, b) == ValueAt(t, size, b)
  {
    UnravelRavel(shape, b);
    RavelBound(shape, b);
    assert ExpandedData(t, shape)[Ravel(shape, b)] == At(t, BroadcastCoord(t.sizes, b));
    CollapseSelf(shape, b);
    assert b[0..] == b;
  }

  function ExpandAll(ts: seq<Indexer>, shape: seq<nat>): (r: seq<Indexer>)
    ensures |r| == |ts|
  {
    if ts == [] then []
    else [if ts[0].Undefined? then Undefined else Defined(ExpandTo(ts[0].tensor, shape))] + ExpandAll(ts[1..], shape)
  }

  predicate AllShaped(ts: seq<Tensor>, shape: seq<nat>) {
    ts == [] || (ts[0].sizes == shape && AllShaped(ts[1..], shape))
  }

  predicate AllOn(ts: seq<Tensor>, device: nat) {
    ts == [] || (ts[0].device == device && AllOn(ts[1..], device))
  }

  predicate AllInt32(ts: seq<Tensor>) {
    ts == [] || (ts[0].dtype.Int32? && AllInt32(ts[1..]))
  }

  /** Expansion changes neither definedness, nor devices and types, nor the selected values. */
  lemma {:induction false} ExpandAllKeeps(ts: seq<Indexer>, shape: seq<nat>, device: nat)
    ensures Defs(ExpandAll(ts, shape)) == Defs(ts) && AllShaped(Chosen(ExpandAll(ts, shape)), shape)
    ensures AllOn(Chosen(ExpandAll(ts, shape)), device) <==> AllOn(Chosen(ts), device)
    ensures AllInt32(Chosen(ExpandAll(ts, shape))) <==> AllInt32(Chosen(ts))
  {
    if ts != [] {
      ExpandAllKeeps(ts[1..], shape, device);
      var us := ExpandAll(ts, shape);
      assert us[1..] == ExpandAll(ts[1..], shape);
      if ts[0].Defined? {
        assert Chosen(us)[1..] == Chosen(us[1..]) && Chosen(ts)[1..] == Chosen(ts[1..]);
      } else {
        assert Chosen(us) == Chosen(us[1..]) && Chosen(ts) == Chosen(ts[1..]);
      }
    }
  }

  lemma {:induction false} ExpandAllValues(ts: seq<Indexer>, sizes: seq<nat>, shape: seq<nat>, b: seq<nat>)
    requires |ts| == |sizes| && InBounds(shape, b)
    ensures Values(ExpandAll(ts, shape), sizes, b) == Values(ts, sizes, b)
  {
    if ts != [] {
      ExpandAllValues(ts[1..], sizes[1..], shape, b);
      if ts[0].Defined? {
        ExpandToAt(ts[0].tensor, shape, b, sizes[0]);
      }
    }
  }

  // ------------------------------------------------------- building the record

  function RestrideSrc(src: View, before: nat, indexed: nat, replacement: seq<nat>): (r: View)
    requires before + indexed <= |src.sizes|
  {
    var end := before + indexed;
    src.(sizes := src.sizes[..before] + replacement + src.sizes[end..],
         strides := src.strides[..before] + Repeat<int>(0, |replacement|) + src.strides[end..])
  }

  function ReshapeIndexer(index: Tensor, before: nat, after: nat): (r: Tensor) {
    PadOnes(index.sizes, before, after);
    index.(sizes := Fill(1, before) + index.sizes + Fill(1, after))
  }

  lemma PadOnes(sizes: seq<nat>, before: nat, after: nat)
    ensures Product(Fill(1, before) + sizes + Fill(1, after)) == Product(sizes)
  {
    ProductOnes(before);
    ProductOnes(after);
    ProductAppend(Fill(1, before) + sizes, Fill(1, after));
    ProductAppend(Fill(1, before), sizes);
  }

  function ReshapeAll(ts: seq<Tensor>, before: nat, after: nat): (r: seq<Tensor>)
    ensures |r| == |ts|
  {
    if ts == [] then [] else [ReshapeIndexer(ts[0], before, after)] + ReshapeAll(ts[1..], before, after)
  }

  /** The sizes of the last tensor of a list. */
  function LastShape(ts: seq<Tensor>, acc: seq<nat>): (r: seq<nat>) {
    if ts == [] then acc else LastShape(ts[1..], ts[0].sizes)
  }

  /** What the AdvancedIndex constructor computes. */
  function Plan(src: View, defs: seq<bool>, chosen: seq<Tensor>): (r: Result<AdvancedIndex>)
    requires |defs| == |src.sizes| && |chosen| == Count(defs)
  {
    LeadAndCount(defs);
    var before := Lead(defs);
    var after := |defs| - before - |chosen|;
    var sizes := Pick<nat>(defs, src.sizes, true);
    var replacement := LastShape(chosen, []);
    if 0 in sizes && 0 !in replacement then Err(EmptyDimension)
    else Ok(AdvancedIndex(RestrideSrc(src, before, |chosen|, replacement), ReshapeAll(chosen, before, after),
                          sizes, Scale(src.elementSize, Pick<int>(defs, src.strides, true)), before, after))
  }

  lemma {:induction false} ChosenCount(ts: seq<Indexer>)
    ensures |Chosen(ts)| == Count(Defs(ts))
  {
    if ts != [] {
      ChosenCount(ts[1..]);
    }
  }

  /** The constructor's running counters and lists. */
  datatype Scan = Scan(before: nat, indexed: nat, after: nat, replacement: seq<nat>, sizes: seq<nat>, strides: seq<int>)

  function ScanStep(src: View, index: Indexer, dim: nat, s: Scan): (r: Scan)
    requires dim < |src.sizes|
  {
    if index.Undefined? then
      if s.indexed == 0 then s.(before := s.before + 1) else s.(after := s.after + 1)
    else
      s.(indexed := s.indexed + 1, replacement := index.tensor.sizes,
         sizes := s.sizes + [src.sizes[dim]], strides := s.strides + [src.strides[dim] * src.elementSize])
  }

  function ScanFrom(src: View, indices: seq<Indexer>, dim: nat, s: Scan): (r: Scan)
    requires dim + |indices| == |src.sizes|
    decreases |indices|
  {
    if indices == [] then s else ScanFrom(src, indices[1..], dim + 1, ScanStep(src, indices[0], dim, s))
  }

  lemma {:induction false} ScanCounts(src: View, indices: seq<Indexer>, dim: nat, s: Scan)
    requires dim + |indices| == |src.sizes|
    ensures var r := ScanFrom(src, indices, dim, s);
      && r.indexed == s.indexed + Count(Defs(indices))
      && r.before == s.before + (if s.indexed == 0 then Lead(Defs(indices)) else 0)
      && r.before + r.indexed + r.after == s.before + s.indexed + s.after + |indices|
      && r.replacement == LastShape(Chosen(indices), s.replacement)
    decreases |indices|
  {
    if indices != [] {
      ScanCounts(src, indices[1..], dim + 1, ScanStep(src, indices[0], dim, s));
      assert Defs(indices)[1..] == Defs(indices[1..]);
      if indices[0].Defined? {
        assert Chosen(indices)[1..] == Chosen(indices[1..]);
      } else {
        assert Chosen(indices) == Chosen(indices[1..]);
      }
    }
  }

  lemma {:induction false} ScanSizes(src: View, indices: seq<Indexer>, dim: nat, s: Scan)
    requires dim + |indices| == |src.sizes|
    ensures ScanFrom(src, indices, dim, s).sizes == s.sizes + Pick<nat>(Defs(indices), src.sizes[dim..], true)
    decreases |indices|
  {
    if indices != [] {
      ScanSizes(src, indices[1..], dim + 1, ScanStep(src, indices[0], dim, s));
      assert Defs(indices)[1..] == Defs(indices[1..]) && src.sizes[dim..][1..] == src.sizes[dim + 1..];
    }
  }

  lemma {:induction false} ScanStrides(src: View, indices: seq<Indexer>, dim: nat, s: Scan)
    requires dim + |indices| == |src.sizes|
    ensures ScanFrom(src, indices, dim, s).strides ==
      s.strides + Scale(src.elementSize, Pick<int>(Defs(indices), src.strides[dim..], true))
    decreases |indices|
  {
    if indices != [] {
      ScanStrides(src, indices[1..], dim + 1, ScanStep(src, indices[0], dim, s));
      assert Defs(indices)[1..] == Defs(indices[1..]) && src.strides[dim..][1..] == src.strides[dim + 1..];
      var rest := Pick<int>(Defs(indices[1..]), src.strides[dim + 1..], true);
      if indices[0].Defined? {
        assert Pick<int>(Defs(indices), src.strides[dim..], true) == [src.strides[dim]] + rest;
        ScaleCons(src.elementSize, src.strides[dim], rest);
      } else {
        assert Pick<int>(Defs(indices), src.strides[dim..], true) == rest;
      }
    }
  }

  lemma ScaleCons(k: int, x: int, xs: seq<int>)
    ensures Scale(k, [x] + xs) == [x * k] + Scale(k, xs)
  {
    assert ([x] + xs)[1..] == xs;
  }

  /** The constructor's first loop: counters, replacement shape, sizes and byte strides. */
  method ScanIndices(src: View, indices: seq<Indexer>)
    returns (dimsBefore: nat, dimsIndexed: nat, dimsAfter: nat, replacement: seq<nat>, indexedSizes: seq<nat>, indexedStrides: seq<int>)
    requires |indices| == |src.sizes|
    ensures Scan(dimsBefore, dimsIndexed, dimsAfter, replacement, indexedSizes, indexedStrides) ==
      ScanFrom(src, indices, 0, Scan(0, 0, 0, [], [], []))
  {
    dimsBefore, dimsIndexed, dimsAfter := 0, 0, 0;
    replacement, indexedSizes, indexedStrides := [], [], [];
    ghost var goal := ScanFrom(src, indices, 0, Scan(0, 0, 0, [], [], []));
    assert indices[0..] == indices;
    for dim := 0 to |indices|
      invariant goal == ScanFrom(src, indices[dim..], dim,
        Scan(dimsBefore, dimsIndexed, dimsAfter, replacement, indexedSizes, indexedStrides))
    {
      assert indices[dim..][0] == indices[dim] && indices[dim..][1..] == indices[dim + 1..];
      if indices[dim].Undefined? {
        if dimsIndexed == 0 {
          dimsBefore := dimsBefore + 1;
        } else {
          dimsAfter := dimsAfter + 1;
        }
      } else {
        dimsIndexed := dimsIndexed + 1;
        replacement := indices[dim].tensor.sizes;
        indexedSizes := indexedSizes + [src.sizes[dim]];
        indexedStrides := indexedStrides + [src.strides[dim] * src.elementSize];
      }
    }
  }

  method BuildAdvancedIndex(src: View, indices: seq<Indexer>) returns (r: Result<AdvancedIndex>)
    requires |indices| == |src.sizes|
    ensures |Chosen(indices)| == Count(Defs(indices))
    ensures r == Plan(src, Defs(indices), Chosen(indices))
    ensures r.Ok? ==> r.value.dimsBefore + |r.value.indices| + r.value.dimsAfter == |src.sizes|
  {
    var dimsBefore, dimsIndexed, dimsAfter, replacement, indexedSizes, indexedStrides := ScanIndices(src, indices);
    ghost var start := Scan(0, 0, 0, [], [], []);
    ScanCounts(src, indices, 0, start);
    ScanSizes(src, indices, 0, start);
    ScanStrides(src, indices, 0, start);
    assert src.sizes[0..] == src.sizes && src.strides[0..] == src.strides;
    assert indexedSizes == Pick<nat>(Defs(indices), src.sizes, true);
    assert indexedStrides == Scale(src.elementSize, Pick<int>(Defs(indices), src.strides, true));
    ChosenCount(indices);
    if 0 in indexedSizes && 0 !in replacement {
      return Err(EmptyDimension);
    }
    var view := RestrideSrc(src, dimsBefore, dimsIndexed, replacement);
    var reshaped := ReshapeDefined(indices, dimsBefore, dimsAfter);
    return Ok(AdvancedIndex(view, reshaped, indexedSizes, indexedStrides, dimsBefore, dimsAfter));
  }

  /** The constructor's last loop: reshape the defined indices, in order. */
  method ReshapeDefined(indices: seq<Indexer>, before: nat, after: nat) returns (reshaped: seq<Tensor>)
    ensures reshaped == ReshapeAll(Chosen(indices), before, after)
  {
    reshaped := [];
    ghost var all := ReshapeAll(Chosen(indices), before, after);
    for i := 0 to |indices|
      invariant reshaped + ReshapeAll(Chosen(indices[i..]), before, after) == all
    {
      assert indices[i..][1..] == indices[i + 1..];
      if indices[i].Defined? {
        assert Chosen(indices[i..])[1..] == Chosen(indices[i + 1..]);
        reshaped := reshaped + [ReshapeIndexer(indices[i].tensor, before, after)];
      } else {
        assert Chosen(indices[i..]) == Chosen(indices[i + 1..]);
      }
    }
  }

  // ----------------------------------------------------- transposing to front

  function Permute(v: View, dims: seq<nat>): (r: View)
    requires forall k :: 0 <= k < |dims| ==> dims[k] < |v.sizes|
  {
    v.(sizes := seq(|dims|, k requires 0 <= k < |dims| => v.sizes[dims[k]]),
       strides := seq(|dims|, k requires 0 <= k < |dims| => v.strides[dims[k]]))
  }

  function Range(lo: nat, hi: nat): (r: seq<nat>)
    requires lo <= hi
    ensures |r| == hi - lo
    decreases hi - lo
  {
    if lo == hi then [] else [lo] + Range(lo + 1, hi)
  }

  /** The dimension order of transposeToFront: defined dimensions first, both groups in order. */
  function FrontOrder(defs: seq<bool>): (dims: seq<nat>) {
    Pick<nat>(defs, Range(0, |defs|), true) + Pick<nat>(defs, Range(0, |defs|), false)
  }

  /** Picking positions picks the values found there. */
  lemma {:induction false} PickByPosition<T>(defs: seq<bool>, lo: nat, xs: seq<T>, want: bool)
    requires lo + |defs| == |xs|
    ensures |Pick<nat>(defs, Range(lo, |xs|), want)| == |Pick(defs, xs[lo..], want)|
    ensures forall k :: 0 <= k < |Pick<nat>(defs, Range(lo, |xs|), want)| ==>
      var d := Pick<nat>(defs, Range(lo, |xs|), want)[k];
      lo <= d < |xs| && xs[d] == Pick(defs, xs[lo..], want)[k]
  {
    if defs != [] {
      PickByPosition(defs[1..], lo + 1, xs, want);
      assert xs[lo..][1..] == xs[lo + 1..] && Range(lo, |xs|)[1..] == Range(lo + 1, |xs|);
      PickCons(defs, Range(lo, |xs|), want);
      PickCons(defs, xs[lo..], want);
    }
  }

  lemma PickCons<T>(defs: seq<bool>, xs: seq<T>, want: bool)
    requires |defs| == |xs| > 0
    ensures Pick(defs, xs, want) ==
      if defs[0] == want then [xs[0]] + Pick(defs[1..], xs[1..], want) else Pick(defs[1..], xs[1..], want)
  {
  }

  /** Positions counted from lo at which the flag is the wanted one. */
  predicate Wanted(ps: seq<nat>, defs: seq<bool>, lo: nat, want: bool) {
    forall k :: 0 <= k < |ps| ==> lo <= ps[k] < lo + |defs| && defs[ps[k] - lo] == want
  }

  lemma WantedShift(ps: seq<nat>, defs: seq<bool>, lo: nat, want: bool)
    requires defs != [] && Wanted(ps, defs[1..], lo + 1, want)
    ensures Wanted(ps, defs, lo, want) && (defs[0] == want ==> Wanted([lo] + ps, defs, lo, want))
  {
  }

  lemma {:induction false} PickedPositions(defs: seq<bool>, lo: nat, hi: nat, want: bool)
    requires lo + |defs| == hi
    ensures Wanted(Pick<nat>(defs, Range(lo, hi), want), defs, lo, want)
  {
    if defs != [] {
      PickedPositions(defs[1..], lo + 1, hi, want);
      PickRange(defs, lo, hi, want);
      WantedShift(Pick<nat>(defs[1..], Range(lo + 1, hi), want), defs, lo, want);
    }
  }

  predicate Increasing(ps: seq<nat>) {
    forall j, k :: 0 <= j < k < |ps| ==> ps[j] < ps[k]
  }

  lemma {:induction false} PickedPositionsIncrease(defs: seq<bool>, lo: nat, hi: nat, want: bool)
    requires lo + |defs| == hi
    ensures Increasing(Pick<nat>(defs, Range(lo, hi), want))
  {
    if defs != [] {
      PickedPositionsIncrease(defs[1..], lo + 1, hi, want);
      PickRange(defs, lo, hi, want);
      if defs[0] == want {
        PickedPositions(defs[1..], lo + 1, hi, want);
        IncreasingCons(lo, Pick<nat>(defs[1..], Range(lo + 1, hi), want));
      }
    }
  }

  lemma PickRange(defs: seq<bool>, lo: nat, hi: nat, want: bool)
    requires lo + |defs| == hi && defs != []
    ensures Pick<nat>(defs, Range(lo, hi), want) ==
      if defs[0] == want then [lo] + Pick<nat>(defs[1..], Range(lo + 1, hi), want) else Pick<nat>(defs[1..], Range(lo + 1, hi), want)
  {
    assert Range(lo, hi)[1..] == Range(lo + 1, hi);
    PickCons<nat>(defs, Range(lo, hi), want);
  }

  lemma IncreasingCons(x: nat, ps: seq<nat>)
    requires Increasing(ps) && forall k :: 0 <= k < |ps| ==> x < ps[k]
    ensures Increasing([x] + ps)
  {
  }

  /** The order lists every dimension once, defined ones first, and is stable in both groups. */
  lemma FrontOrderIsStablePermutation(defs: seq<bool>)
    ensures |FrontOrder(defs)| == |defs|
    ensures forall d :: 0 <= d < |defs| ==> d in FrontOrder(defs)
    ensures forall k :: 0 <= k < |defs| ==> 0 <= FrontOrder(defs)[k] < |defs| && defs[FrontOrder(defs)[k]] == (k < Count(defs))
    ensures Increasing(FrontOrder(defs)[..Count(defs)]) && Increasing(FrontOrder(defs)[Count(defs)..])
  {
    var all := Range(0, |defs|);
    var front, back := Pick<nat>(defs, all, true), Pick<nat>(defs, all, false);
    CountIsPicked<nat>(defs, all);
    PickedPositions(defs, 0, |defs|, true);
    PickedPositions(defs, 0, |defs|, false);
    PickedPositionsIncrease(defs, 0, |defs|, true);
    PickedPositionsIncrease(defs, 0, |defs|, false);
    assert FrontOrder(defs)[..Count(defs)] == front && FrontOrder(defs)[Count(defs)..] == back;
    forall k | 0 <= k < |defs|
      ensures 0 <= FrontOrder(defs)[k] < |defs| && defs[FrontOrder(defs)[k]] == (k < Count(defs))
    {
      if k < |front| {
        assert FrontOrder(defs)[k] == front[k];
      } else {
        assert FrontOrder(defs)[k] == back[k - |front|];
      }
    }
    forall d | 0 <= d < |defs| ensures d in FrontOrder(defs) {
      RangeAt(0, |defs|, d);
      PickCover<nat>(defs, all, d);
    }
  }

  lemma {:induction false} RangeAt(lo: nat, hi: nat, k: nat)
    requires lo <= hi && k < hi - lo
    ensures Range(lo, hi)[k] == lo + k
    decreases k
  {
    if k > 0 {
      RangeAt(lo + 1, hi, k - 1);
    }
  }

  method TransposeToFront(self: View, indices: seq<Indexer>) returns (view: View, moved: seq<Indexer>)
    requires |self.sizes| <= |indices|
    ensures var ts := indices[..|self.sizes|];
      var defs := Defs(ts);
      && moved == Pick(defs, ts, true) + Pick(defs, ts, false)
      && view == self.(sizes := Pick<nat>(defs, self.sizes, true) + Pick<nat>(defs, self.sizes, false),
                       strides := Pick<int>(defs, self.strides, true) + Pick<int>(defs, self.strides, false))
  {
    var ts := indices[..|self.sizes|];
    var frontDims, frontMoved := Gather(ts, true);
    var backDims, backMoved := Gather(ts, false);
    PermuteByFrontOrder(self, Defs(ts));
    view := Permute(self, frontDims + backDims);
    moved := frontMoved + backMoved;
  }

  /** The positions from i on whose entry is (un)defined, and those entries. */
  function DimsFrom(ts: seq<Indexer>, i: nat, defined: bool): seq<nat>
    decreases |ts| - i
  {
    if i >= |ts| then [] else (if ts[i].Defined? == defined then [i] else []) + DimsFrom(ts, i + 1, defined)
  }

  function MovedFrom(ts: seq<Indexer>, i: nat, defined: bool): seq<Indexer>
    decreases |ts| - i
  {
    if i >= |ts| then [] else (if ts[i].Defined? == defined then [ts[i]] else []) + MovedFrom(ts, i + 1, defined)
  }

  lemma {:induction false} GatheredIsPicked(ts: seq<Indexer>, i: nat, defined: bool)
    requires i <= |ts|
    ensures DimsFrom(ts, i, defined) == Pick<nat>(Defs(ts[i..]), Range(i, |ts|), defined)
    ensures MovedFrom(ts, i, defined) == Pick<Indexer>(Defs(ts[i..]), ts[i..], defined)
    decreases |ts| - i
  {
    if i < |ts| {
      GatheredIsPicked(ts, i + 1, defined);
      assert ts[i..][1..] == ts[i + 1..] && Defs(ts[i..])[1..] == Defs(ts[i + 1..]);
      assert Range(i, |ts|)[1..] == Range(i + 1, |ts|);
      PickCons<nat>(Defs(ts[i..]), Range(i, |ts|), defined);
      PickCons<Indexer>(Defs(ts[i..]), ts[i..], defined);
    }
  }

  /** One pass over the dimensions: the positions and entries that are (un)defined. */
  method Gather(ts: seq<Indexer>, defined: bool) returns (dims: seq<nat>, moved: seq<Indexer>)
    ensures dims == Pick<nat>(Defs(ts), Range(0, |ts|), defined) && moved == Pick(Defs(ts), ts, defined)
  {
    dims, moved := [], [];
    for i := 0 to |ts|
      invariant dims + DimsFrom(ts, i, defined) == DimsFrom(ts, 0, defined)
      invariant moved + MovedFrom(ts, i, defined) == MovedFrom(ts, 0, defined)
    {
      ghost var ds, ms := DimsFrom(ts, i + 1, defined), MovedFrom(ts, i + 1, defined);
      if ts[i].Defined? == defined {
        assert dims + ([i] + ds) == dims + [i] + ds;
        assert moved + ([ts[i]] + ms) == moved + [ts[i]] + ms;
        dims := dims + [i];
        moved := moved + [ts[i]];
      } else {
        assert [] + ds == ds && [] + ms == ms;
      }
    }
    assert dims == DimsFrom(ts, 0, defined) && moved == MovedFrom(ts, 0, defined);
    GatheredIsPicked(ts, 0, defined);
    assert ts[0..] == ts;
  }

  lemma PermuteByFrontOrder(self: View, defs: seq<bool>)
    requires |defs| == |self.sizes|
    ensures forall k :: 0 <= k < |FrontOrder(defs)| ==> FrontOrder(defs)[k] < |self.sizes|
    ensures Permute(self, FrontOrder(defs)) ==
      self.(sizes := Pick<nat>(defs, self.sizes, true) + Pick<nat>(defs, self.sizes, false),
            strides := Pick<int>(defs, self.strides, true) + Pick<int>(defs, self.strides, false))
  {
    SelectByFrontOrder<nat>(defs, self.sizes);
    SelectByFrontOrder<int>(defs, self.strides);
  }

  lemma SelectByFrontOrder<T>(defs: seq<bool>, xs: seq<T>)
    requires |defs| == |xs|
    ensures var dims := FrontOrder(defs);
      && (forall k :: 0 <= k < |dims| ==> dims[k] < |xs|)
      && seq(|dims|, k requires 0 <= k < |dims| => xs[dims[k]]) == Pick(defs, xs, true) + Pick(defs, xs, false)
  {
    assert xs[0..] == xs;
    PickByPosition(defs, 0, xs, true);
    PickByPosition(defs, 0, xs, false);
    AppendAt(Pick<nat>(defs, Range(0, |xs|), true), Pick<nat>(defs, Range(0, |xs|), false),
             Pick(defs, xs, true), Pick(defs, xs, false), xs);
  }

  lemma AppendAt<T>(a: seq<nat>, b: seq<nat>, x: seq<T>, y: seq<T>, xs: seq<T>)
    requires |a| == |x| && |b| == |y|
    requires forall k :: 0 <= k < |a| ==> a[k] < |xs| && xs[a[k]] == x[k]
    requires forall k :: 0 <= k < |b| ==> b[k] < |xs| && xs[b[k]] == y[k]
    ensures forall k :: 0 <= k < |a + b| ==> (a + b)[k] < |xs|
    ensures seq(|a + b|, k requires 0 <= k < |a + b| => xs[(a + b)[k]]) == x + y
  {
  }

  // ------------------------------------------------ the record means the same

  /** Byte address of an element, from the tensor's offset and an offset inside it. */
  function Bytes(elementSize: nat, offset: int, inside: int): int {
    elementSize * (offset + inside)
  }

  /** Wrapped values of the recorded indexers at an output coordinate, read by broadcasting. */
  function RecordedValues(ts: seq<Tensor>, sizes: seq<nat>, o: seq<nat>): (r: seq<int>)
    requires |ts| == |sizes|
    ensures |r| == |ts|
  {
    if ts == [] then [] else [ValueAt(ts[0], sizes[0], o)] + RecordedValues(ts[1..], sizes[1..], o)
  }

  /** The byte address the record gives for an output coordinate: the strided view plus, per
      indexer, its value times its byte stride. */
  function RecordBytes(info: AdvancedIndex, o: seq<nat>): int
    requires |info.indices| == |info.indexedSizes|
  {
    Bytes(info.src.elementSize, info.src.offset, Dot(info.src.strides, o))
    + Dot(info.indexedStrides, RecordedValues(info.indices, info.indexedSizes, o))
  }

  lemma {:induction false} RavelOnesBefore(sizes: seq<nat>, c: seq<nat>, n: nat)
    requires |sizes| == |c|
    ensures Ravel(Fill(1, n) + sizes, Fill(0, n) + c) == Ravel(sizes, c)
  {
    if n == 0 {
      assert Fill(1, n) + sizes == sizes && Fill(0, n) + c == c;
    } else {
      RavelOnesBefore(sizes, c, n - 1);
      assert (Fill(1, n) + sizes)[1..] == Fill(1, n - 1) + sizes;
      assert (Fill(0, n) + c)[1..] == Fill(0, n - 1) + c;
    }
  }

  lemma {:induction false} RavelOnesAfter(sizes: seq<nat>, c: seq<nat>, n: nat)
    requires |sizes| == |c|
    ensures Ravel(sizes + Fill(1, n), c + Fill(0, n)) == Ravel(sizes, c)
  {
    if sizes == [] {
      assert sizes + Fill(1, n) == Fill(1, n) + sizes && c + Fill(0, n) == Fill(0, n) + c;
      RavelOnesBefore(sizes, c, n);
    } else {
      RavelOnesAfter(sizes[1..], c[1..], n);
      assert (sizes + Fill(1, n))[1..] == sizes[1..] + Fill(1, n);
      assert (c + Fill(0, n))[1..] == c[1..] + Fill(0, n);
      ProductOnes(n);
      ProductAppend(sizes[1..], Fill(1, n));
    }
  }

  /** A reshaped indexer, read at an output coordinate x ++ b ++ y, gives the value at b. */
  lemma ReshapedValue(t: Tensor, x: seq<nat>, b: seq<nat>, y: seq<nat>, size: nat)
    requires InBounds(t.sizes, b)
    ensures ValueAt(ReshapeIndexer(t, |x|, |y|), size, x + b + y) == ValueAt(t, size, b)
  {
    var r := ReshapeIndexer(t, |x|, |y|);
    var zx, zy := Fill(0, |x|), Fill(0, |y|);
    var ox, oy := Fill(1, |x|), Fill(1, |y|);
    CollapseSelf(t.sizes, b);
    CollapseOnes(|x|, x);
    CollapseOnes(|y|, y);
    var o := x + b + y;
    assert |r.sizes| == |o| && o[0..] == o && b[0..] == b;
    assert Collapse(r.sizes, o) == zx + b + zy by {
      CollapseAppend(ox + t.sizes, oy, x + b, y);
      CollapseAppend(ox, t.sizes, x, b);
    }
    InBoundsAppend(ox + t.sizes, oy, zx + b, zy);
    InBoundsAppend(ox, t.sizes, zx, b);
    RavelOnesAfter(ox + t.sizes, zx + b, |y|);
    RavelOnesBefore(t.sizes, b, |x|);
  }

  /** The reshaped indexers read the same values as the indices themselves. */
  lemma {:induction false} ReshapedValues(ts: seq<Tensor>, sizes: seq<nat>, shape: seq<nat>, x: seq<nat>, b: seq<nat>, y: seq<nat>)
    requires |ts| == |sizes| && AllShaped(ts, shape) && InBounds(shape, b)
    ensures RecordedValues(ReshapeAll(ts, |x|, |y|), sizes, x + b + y) == RecordedValues(ts, sizes, b)
  {
    if ts != [] {
      ReshapedValue(ts[0], x, b, y, sizes[0]);
      ReshapedValues(ts[1..], sizes[1..], shape, x, b, y);
      assert ReshapeAll(ts, |x|, |y|)[1..] == ReshapeAll(ts[1..], |x|, |y|);
    }
  }

  /** The values of the chosen tensors are the values of the defined dimensions. */
  lemma {:induction false} ChosenValues(ts: seq<Indexer>, sizes: seq<nat>, b: seq<nat>)
    requires |ts| == |sizes|
    ensures |Chosen(ts)| == |Pick(Defs(ts), sizes, true)|
    ensures RecordedValues(Chosen(ts), Pick(Defs(ts), sizes, true), b) == Pick(Defs(ts), Values(ts, sizes, b), true)
  {
    if ts != [] {
      ChosenValues(ts[1..], sizes[1..], b);
      var ds := Defs(ts);
      assert ds[1..] == Defs(ts[1..]) && Values(ts, sizes, b)[1..] == Values(ts[1..], sizes[1..], b);
      if ts[0].Defined? {
        assert Chosen(ts)[1..] == Chosen(ts[1..]);
        assert Pick(ds, sizes, true)[1..] == Pick(ds[1..], sizes[1..], true);
      } else {
        assert Chosen(ts) == Chosen(ts[1..]);
        assert Pick(ds, sizes, true) == Pick(ds[1..], sizes[1..], true);
      }
    }
  }

  /** The restrided view contributes the remaining dimensions and nothing else. */
  lemma RestridedDot(s: seq<int>, t: seq<int>, x: seq<int>, b: seq<int>, y: seq<int>)
    requires |s| == |x| && |t| == |y|
    ensures Dot(s + Repeat<int>(0, |b|) + t, x + b + y) == Dot(s + t, x + y)
  {
    DotAppend(s + Repeat<int>(0, |b|), x + b, t, y);
    DotAppend(s, x, Repeat<int>(0, |b|), b);
    DotZeros(|b|, b);
    DotAppend(s, x, t, y);
  }

  /** The naive coordinate's two halves are the remaining coordinate and the index values. */
  lemma {:induction false} SelectedHalves(defs: seq<bool>, values: seq<int>, rest: seq<nat>)
    requires |defs| == |values| && |rest| == |Pick(defs, values, false)|
    ensures Pick(defs, SelectedCoord(defs, values, rest), false) == rest
    ensures Pick(defs, SelectedCoord(defs, values, rest), true) == Pick(defs, values, true)
  {
    if defs != [] {
      SelectedHalves(defs[1..], values[1..], if defs[0] then rest else rest[1..]);
    }
  }

  lemma {:induction false} LastOfShaped(ts: seq<Tensor>, shape: seq<nat>, acc: seq<nat>)
    requires ts != [] && AllShaped(ts, shape)
    ensures LastShape(ts, acc) == shape
  {
    if |ts| > 1 {
      LastOfShaped(ts[1..], shape, ts[0].sizes);
    }
  }

  /** The record for indices on dimensions p .. p+k, in slices. */
  function BlockPlan(src: View, p: nat, k: nat, chosen: seq<Tensor>): (r: Result<AdvancedIndex>)
    requires p + k <= |src.sizes|
  {
    var after := |src.sizes| - p - k;
    var replacement := LastShape(chosen, []);
    if 0 in src.sizes[p..p + k] && 0 !in replacement then Err(EmptyDimension)
    else Ok(AdvancedIndex(RestrideSrc(src, p, k, replacement), ReshapeAll(chosen, p, after),
                          src.sizes[p..p + k], Scale(src.elementSize, src.strides[p..p + k]), p, after))
  }

  lemma PlanOfBlock(src: View, p: nat, k: nat, m: nat, chosen: seq<Tensor>)
    requires |src.sizes| == p + k + m && |chosen| == k > 0
    ensures Count(Block(p, k, m)) == k && Plan(src, Block(p, k, m), chosen) == BlockPlan(src, p, k, chosen)
  {
    LeadOfBlock(p, k, m);
    PickBlock<nat>(p, k, m, src.sizes);
    PickBlock<int>(p, k, m, src.strides);
  }

  /** The strided view of the record adds up the remaining dimensions. */
  lemma BlockViewDot(src: View, p: nat, k: nat, chosen: seq<Tensor>, shape: seq<nat>, x: seq<nat>, b: seq<nat>, y: seq<nat>)
    requires p + k <= |src.sizes| && |chosen| == k > 0 && AllShaped(chosen, shape) && BlockPlan(src, p, k, chosen).Ok?
    requires |x| == p && |y| == |src.sizes| - p - k && |b| == |shape|
    ensures Dot(BlockPlan(src, p, k, chosen).value.src.strides, x + b + y) ==
      Dot(src.strides[..p] + src.strides[p + k..], x + y)
  {
    LastOfShaped(chosen, shape, []);
    RestridedDot(src.strides[..p], src.strides[p + k..], x, b, y);
  }

  /** The indexers of the record add up the indexed dimensions, in bytes. */
  lemma BlockIndexedDot(src: View, p: nat, k: nat, chosen: seq<Tensor>, shape: seq<nat>, x: seq<nat>, b: seq<nat>, y: seq<nat>)
    requires p + k <= |src.sizes| && |chosen| == k > 0 && AllShaped(chosen, shape) && BlockPlan(src, p, k, chosen).Ok?
    requires |x| == p && |y| == |src.sizes| - p - k && InBounds(shape, b)
    ensures var info := BlockPlan(src, p, k, chosen).value;
      Dot(info.indexedStrides, RecordedValues(info.indices, info.indexedSizes, x + b + y)) ==
      src.elementSize * Dot(src.strides[p..p + k], RecordedValues(chosen, src.sizes[p..p + k], b))
  {
    ReshapedValues(chosen, src.sizes[p..p + k], shape, x, b, y);
    DotScale(src.elementSize, src.strides[p..p + k], RecordedValues(chosen, src.sizes[p..p + k], b));
  }

  /** The record's address, given its two parts. */
  lemma BytesOfParts(info: AdvancedIndex, o: seq<nat>, rest: int, indexed: int)
    requires |info.indices| == |info.indexedSizes| && Dot(info.src.strides, o) == rest
    requires Dot(info.indexedStrides, RecordedValues(info.indices, info.indexedSizes, o)) == info.src.elementSize * indexed
    ensures RecordBytes(info, o) == info.src.elementSize * (info.src.offset + (indexed + rest))
  {
    Distribute(info.src.elementSize, info.src.offset, rest, indexed);
  }

  lemma Distribute(e: int, off: int, x: int, y: int)
    ensures e * (off + x) + e * y == e * (off + (y + x))
  {
  }

  /** The record's address in terms of the indexed sizes and strides and the remaining strides. */
  lemma BlockAddress(src: View, p: nat, k: nat, chosen: seq<Tensor>, shape: seq<nat>, x: seq<nat>, b: seq<nat>, y: seq<nat>,
                     sizes: seq<nat>, inner: seq<int>, outer: seq<int>, total: int)
    requires p + k <= |src.sizes| && |chosen| == k > 0 && AllShaped(chosen, shape) && BlockPlan(src, p, k, chosen).Ok?
    requires |x| == p && |y| == |src.sizes| - p - k && InBounds(shape, b)
    requires sizes == src.sizes[p..p + k] && inner == src.strides[p..p + k] && outer == src.strides[..p] + src.strides[p + k..]
    requires total == Dot(inner, RecordedValues(chosen, sizes, b)) + Dot(outer, x + y)
    ensures RecordBytes(BlockPlan(src, p, k, chosen).value, x + b + y) == Bytes(src.elementSize, src.offset, total)
  {
    BlockViewDot(src, p, k, chosen, shape, x, b, y);
    BlockIndexedDot(src, p, k, chosen, shape, x, b, y);
    BytesOfParts(BlockPlan(src, p, k, chosen).value, x + b + y, Dot(outer, x + y),
                 Dot(inner, RecordedValues(chosen, sizes, b)));
  }

  // ------------------------------------------------------------------ make_info

  function Padded(ts: seq<Indexer>, n: nat): (r: seq<Indexer>) {
    if |ts| < n then ts + Repeat(Undefined, n - |ts|) else ts
  }

  /** At output coordinate x ++ b ++ y, b being the broadcast index coordinate, the record's byte
      address is that of the naively selected element. */
  ghost predicate AddressesNaively(self: View, ts: seq<Indexer>, info: AdvancedIndex, x: seq<nat>, b: seq<nat>, y: seq<nat>)
    requires |ts| == |self.sizes| && |info.indices| == |info.indexedSizes|
  {
    var values := Values(ts, self.sizes, b);
    && |x + y| == |Pick(Defs(ts), values, false)|
    && RecordBytes(info, x + b + y) ==
       Bytes(self.elementSize, self.offset, Dot(self.strides, SelectedCoord(Defs(ts), values, x + y)))
  }

  /** The record describes naive indexing of `self` by `ts`, in shape and in every address. */
  ghost predicate PlansNaiveIndexing(self: View, ts: seq<Indexer>, adjacent: bool, shape: seq<nat>, info: AdvancedIndex)
    requires |ts| == |self.sizes|
  {
    && |info.indices| == |info.indexedSizes|
    && info.src.sizes == NaiveShape(Defs(ts), adjacent, self.sizes, shape)
    && forall x, b, y :: InBounds(info.src.sizes, x + b + y) && |x| == InsertAt(Defs(ts), adjacent) && |b| == |shape| ==>
         AddressesNaively(self, ts, info, x, b, y)
  }

  /** The set flags are one block. */
  predicate IsBlock(defs: seq<bool>) {
    Lead(defs) + Count(defs) <= |defs| && defs == BlockAt(defs, Lead(defs))
  }

  /** How many flags follow a block of all set flags that starts at p. */
  function Trail(defs: seq<bool>, p: nat): nat {
    if p + Count(defs) <= |defs| then |defs| - p - Count(defs) else 0
  }

  /** As many set flags as in defs, in one block that starts at p. */
  function BlockAt(defs: seq<bool>, p: nat): seq<bool> { Block(p, Count(defs), Trail(defs, p)) }

  /** A per-dimension list as handed to the constructor: unchanged when the indices are adjacent,
      else with the indexed dimensions moved to the front. */
  function Arranged<T>(defs: seq<bool>, adjacent: bool, xs: seq<T>): (ys: seq<T>)
    requires |defs| == |xs|
  {
    if adjacent then xs else Pick(defs, xs, true) + Pick(defs, xs, false)
  }

  /** Either way the indexed entries form a slice that starts where naive indexing inserts. */
  lemma ArrangedSlices<T>(defs: seq<bool>, adjacent: bool, xs: seq<T>)
    requires |defs| == |xs| && Count(defs) > 0 && (adjacent ==> IsBlock(defs))
    ensures var ys, p, k := Arranged(defs, adjacent, xs), InsertAt(defs, adjacent), Count(defs);
      && |ys| == |xs| && p + k <= |xs|
      && ys[p..p + k] == Pick(defs, xs, true) && ys[..p] + ys[p + k..] == Pick(defs, xs, false)
  {
    var k := Count(defs);
    if adjacent {
      var p := Lead(defs);
      PickBlock(p, k, Trail(defs, p), xs);
    } else {
      CountIsPicked(defs, xs);
      FrontAndBack(Pick(defs, xs, true), Pick(defs, xs, false), k);
    }
  }

  lemma FrontAndBack<T>(a: seq<T>, b: seq<T>, k: nat)
    requires |a| == k
    ensures |a + b| == k + |b| && (a + b)[0..0 + k] == a && (a + b)[..0] + (a + b)[0 + k..] == b
  {
  }

  function ArrangedView(self: View, defs: seq<bool>, adjacent: bool): (v: View)
    requires |defs| == |self.sizes|
  {
    PickLength(defs, self.sizes, self.strides);
    self.(sizes := Arranged<nat>(defs, adjacent, self.sizes), strides := Arranged<int>(defs, adjacent, self.strides))
  }

  /** The definedness flags handed to the constructor. */
  function ArrangedFlags(defs: seq<bool>, adjacent: bool): seq<bool> {
    if adjacent then defs else BlockAt(defs, 0)
  }

  /** The naive offset, in the two halves of the dimension list. */
  lemma NaiveOffset(self: View, ts: seq<Indexer>, shape: seq<nat>, b: seq<nat>, rest: seq<nat>)
    requires |ts| == |self.sizes| && InBounds(shape, b) && |rest| == |ts| - Count(Defs(ts))
    ensures |rest| == |Pick(Defs(ts), Values(ts, self.sizes, b), false)|
    ensures Dot(self.strides, SelectedCoord(Defs(ts), Values(ts, self.sizes, b), rest)) ==
      Dot(Pick<int>(Defs(ts), self.strides, true), Pick(Defs(ts), Values(ts, self.sizes, b), true))
      + Dot(Pick<int>(Defs(ts), self.strides, false), rest)
  {
    var defs, values := Defs(ts), Values(ts, self.sizes, b);
    CountIsPicked(defs, values);
    SelectedHalves(defs, values, rest);
    DotSplits(defs, self.strides, SelectedCoord(defs, values, rest));
  }

  /** The tensors handed to the constructor read the naive index values. */
  lemma ChosenAreNaive(self: View, ts: seq<Indexer>, shape: seq<nat>, b: seq<nat>)
    requires |ts| == |self.sizes| && InBounds(shape, b)
    ensures |Chosen(ExpandAll(ts, shape))| == |Pick<nat>(Defs(ts), self.sizes, true)|
    ensures RecordedValues(Chosen(ExpandAll(ts, shape)), Pick<nat>(Defs(ts), self.sizes, true), b) ==
      Pick(Defs(ts), Values(ts, self.sizes, b), true)
  {
    ExpandAllKeeps(ts, shape, 0);
    ExpandAllValues(ts, self.sizes, shape, b);
    ChosenValues(ExpandAll(ts, shape), self.sizes, b);
  }

  /** The constructor's arguments for index list `ts`: a view whose dimensions p .. p+k are the
      indexed ones and whose other dimensions are the remaining ones, and the index tensors. */
  ghost predicate Prepared(self: View, ts: seq<Indexer>, adjacent: bool, shape: seq<nat>, view: View, p: nat, k: nat, chosen: seq<Tensor>)
    requires |ts| == |self.sizes|
  {
    var defs := Defs(ts);
    && p == InsertAt(defs, adjacent) && k == Count(defs) && k > 0 && p + k <= |ts| == |view.sizes|
    && view.offset == self.offset && view.elementSize == self.elementSize
    && chosen == Chosen(ExpandAll(ts, shape)) && |chosen| == k && AllShaped(chosen, shape)
    && view.sizes[p..p + k] == Pick<nat>(defs, self.sizes, true)
    && view.sizes[..p] + view.sizes[p + k..] == Pick<nat>(defs, self.sizes, false)
    && view.strides[p..p + k] == Pick<int>(defs, self.strides, true)
    && view.strides[..p] + view.strides[p + k..] == Pick<int>(defs, self.strides, false)
  }

  lemma ArrangementIsPrepared(self: View, ts: seq<Indexer>, adjacent: bool, shape: seq<nat>)
    requires |ts| == |self.sizes| && Count(Defs(ts)) > 0 && (adjacent ==> IsBlock(Defs(ts)))
    ensures Prepared(self, ts, adjacent, shape, ArrangedView(self, Defs(ts), adjacent), InsertAt(Defs(ts), adjacent),
                     Count(Defs(ts)), Chosen(ExpandAll(ts, shape)))
  {
    var defs := Defs(ts);
    assert AllShaped(Chosen(ExpandAll(ts, shape)), shape) && |Chosen(ExpandAll(ts, shape))| == Count(defs) by {
      ExpandAllKeeps(ts, shape, 0);
      ChosenCount(ExpandAll(ts, shape));
    }
    ArrangedSlices<nat>(defs, adjacent, self.sizes);
    ArrangedSlices<int>(defs, adjacent, self.strides);
  }

  /** The naive offset from the chosen tensors, the indexed sizes and the two halves of the strides. */
  lemma NaiveTotal(self: View, ts: seq<Indexer>, shape: seq<nat>, chosen: seq<Tensor>, b: seq<nat>, rest: seq<nat>,
                   sizes: seq<nat>, inner: seq<int>, outer: seq<int>) returns (total: int)
    requires |ts| == |self.sizes| && InBounds(shape, b) && |rest| == |ts| - Count(Defs(ts)) && chosen == Chosen(ExpandAll(ts, shape))
    requires sizes == Pick<nat>(Defs(ts), self.sizes, true)
    requires inner == Pick<int>(Defs(ts), self.strides, true) && outer == Pick<int>(Defs(ts), self.strides, false)
    ensures |rest| == |Pick(Defs(ts), Values(ts, self.sizes, b), false)| && |chosen| == |sizes|
    ensures total == Dot(self.strides, SelectedCoord(Defs(ts), Values(ts, self.sizes, b), rest))
    ensures total == Dot(inner, RecordedValues(chosen, sizes, b)) + Dot(outer, rest)
  {
    ChosenAreNaive(self, ts, shape, b);
    NaiveOffset(self, ts, shape, b, rest);
    total := Dot(self.strides, SelectedCoord(Defs(ts), Values(ts, self.sizes, b), rest));
  }

  /** Whichever arrangement was chosen, the record's address is that of naive indexing. */
  lemma AddressIsNaive(self: View, ts: seq<Indexer>, adjacent: bool, shape: seq<nat>, view: View, p: nat, k: nat, chosen: seq<Tensor>,
                       x: seq<nat>, b: seq<nat>, y: seq<nat>, info: AdvancedIndex)
    requires |ts| == |self.sizes| && Prepared(self, ts, adjacent, shape, view, p, k, chosen)
    requires |x| == p && |x| + |y| == |ts| - k && InBounds(shape, b) && BlockPlan(view, p, k, chosen) == Ok(info)
    ensures |info.indices| == |info.indexedSizes| && AddressesNaively(self, ts, info, x, b, y)
  {
    var sizes, inner, outer := view.sizes[p..p + k], view.strides[p..p + k], view.strides[..p] + view.strides[p + k..];
    var total := NaiveTotal(self, ts, shape, chosen, b, x + y, sizes, inner, outer);
    BlockAddress(view, p, k, chosen, shape, x, b, y, sizes, inner, outer, total);
  }

  lemma RecordShape(self: View, ts: seq<Indexer>, adjacent: bool, shape: seq<nat>, view: View, p: nat, k: nat, chosen: seq<Tensor>)
    requires |ts| == |self.sizes| && Prepared(self, ts, adjacent, shape, view, p, k, chosen) && BlockPlan(view, p, k, chosen).Ok?
    ensures var info := BlockPlan(view, p, k, chosen).value;
      && info.src.sizes == view.sizes[..p] + shape + view.sizes[p + k..]
      && info.src.sizes == NaiveShape(Defs(ts), adjacent, self.sizes, shape)
  {
    LastOfShaped(chosen, shape, []);
    var rest := Pick<nat>(Defs(ts), self.sizes, false);
    assert rest[..p] == view.sizes[..p] && rest[p..] == view.sizes[p + k..];
  }

  /** Main step: the record built from the prepared view plans naive indexing. */
  lemma PlanMeansNaive(self: View, ts: seq<Indexer>, adjacent: bool, shape: seq<nat>, view: View, p: nat, k: nat, chosen: seq<Tensor>)
    requires |ts| == |self.sizes| && Prepared(self, ts, adjacent, shape, view, p, k, chosen) && BlockPlan(view, p, k, chosen).Ok?
    ensures PlansNaiveIndexing(self, ts, adjacent, shape, BlockPlan(view, p, k, chosen).value)
  {
    var defs := Defs(ts);
    var info := BlockPlan(view, p, k, chosen).value;
    RecordShape(self, ts, adjacent, shape, view, p, k, chosen);
    forall x, b, y | InBounds(info.src.sizes, x + b + y) && |x| == p && |b| == |shape|
      ensures AddressesNaively(self, ts, info, x, b, y)
    {
      InBoundsSplit(view.sizes[..p], shape, view.sizes[p + k..], x, b, y);
      AddressIsNaive(self, ts, adjacent, shape, view, p, k, chosen, x, b, y, info);
    }
  }

  lemma {:induction false} InBoundsSplit(s: seq<nat>, t: seq<nat>, u: seq<nat>, x: seq<nat>, b: seq<nat>, y: seq<nat>)
    requires InBounds(s + t + u, x + b + y) && |s| == |x| && |t| == |b|
    ensures InBounds(t, b) && |u| == |y|
  {
    if s == [] {
      assert s + t + u == t + u && x + b + y == b + y;
      InBoundsAppend(t, u, b, y);
    } else {
      assert (s + t + u)[1..] == s[1..] + t + u && (x + b + y)[1..] == x[1..] + b + y;
      InBoundsSplit(s[1..], t, u, x[1..], b, y);
    }
  }

  predicate TypesAllowed(ts: seq<Indexer>) {
    forall t :: t in ts && t.Defined? ==> !t.tensor.dtype.OtherType?
  }

  /** Exactly the argument lists that make_info accepts. */
  predicate Accepted(self: View, orig: seq<Indexer>) {
    && TypesAllowed(orig)
    && Expanded(self.sizes, orig, []).Ok?
    && var e := Expanded(self.sizes, orig, []).value;
    && CommonShape(Chosen(e), []).Some?
    && |e| <= |self.sizes| && AllOn(Chosen(e), self.device) && AllInt32(Chosen(e))
    && !(0 in Pick<nat>(Defs(Padded(e, |self.sizes|)), self.sizes, true) && 0 !in CommonShape(Chosen(e), []).value)
  }

  lemma {:induction false} DefsAppend(ts: seq<Indexer>, us: seq<Indexer>)
    ensures Defs(ts + us) == Defs(ts) + Defs(us)
  {
    if ts == [] {
      assert ts + us == us;
    } else {
      DefsAppend(ts[1..], us);
      assert (ts + us)[0] == ts[0] && (ts + us)[1..] == ts[1..] + us;
      var d: seq<bool> := [ts[0].Defined?];
      assert d + (Defs(ts[1..]) + Defs(us)) == d + Defs(ts[1..]) + Defs(us);
    }
  }

  lemma {:induction false} ChosenAppend(ts: seq<Indexer>, us: seq<Indexer>)
    ensures Chosen(ts + us) == Chosen(ts) + Chosen(us)
  {
    if ts == [] {
      assert ts + us == us;
    } else {
      ChosenAppend(ts[1..], us);
      TailAppend<Indexer>(ts, us);
      if ts[0].Defined? {
        Associate<Tensor>([ts[0].tensor], Chosen(ts[1..]), Chosen(us));
      }
    }
  }

  lemma {:induction false} AllInt32Append(a: seq<Tensor>, b: seq<Tensor>)
    ensures AllInt32(a + b) <==> AllInt32(a) && AllInt32(b)
  {
    if a == [] {
      assert a + b == b;
    } else {
      TailAppend<Tensor>(a, b);
      AllInt32Append(a[1..], b);
    }
  }

  /** What expansion leaves an int32 index: an int32 tensor, or a mask without dimensions, which
      leaves nothing. */
  predicate StaysInt32(t: Indexer) {
    t.Defined? ==> t.tensor.dtype.Int32? || (t.tensor.IsMask() && t.tensor.sizes == [])
  }

  lemma {:induction false} ExpandedIsInt32Iff(sizes: seq<nat>, orig: seq<Indexer>, done: seq<Indexer>)
    requires Expanded(sizes, orig, done).Ok?
    ensures AllInt32(Chosen(Expanded(sizes, orig, done).value)) <==>
      AllInt32(Chosen(done)) && forall i :: 0 <= i < |orig| ==> StaysInt32(orig[i])
    decreases |orig|
  {
    if orig != [] {
      var t := orig[0];
      var added := if t.Defined? && t.tensor.IsMask() then MaskColumnsFrom(t.tensor, 0) else [t];
      ExpandedIsInt32Iff(sizes, orig[1..], done + added);
      ChosenAppend(done, added);
      AllInt32Append(Chosen(done), Chosen(added));
      assert AllInt32(Chosen(added)) <==> StaysInt32(t);
      assert forall i :: 0 < i < |orig| ==> orig[i] == orig[1..][i - 1];
    }
  }

  /** Masks are expanded but never accepted: their columns are int64, so a list is refused at the
      int32 check exactly when some index is neither int32 nor a mask without dimensions. */
  lemma AcceptedAreInt32(self: View, orig: seq<Indexer>)
    ensures Accepted(self, orig) ==> forall i :: 0 <= i < |orig| ==> StaysInt32(orig[i])
    ensures Expanded(self.sizes, orig, []).Ok? ==>
      (AllInt32(Chosen(Expanded(self.sizes, orig, []).value)) <==> forall i :: 0 <= i < |orig| ==> StaysInt32(orig[i]))
  {
    if Expanded(self.sizes, orig, []).Ok? {
      ExpandedIsInt32Iff(self.sizes, orig, []);
    }
  }

  lemma {:induction false} ChosenOfPadding(n: nat)
    ensures Chosen(Repeat(Undefined, n)) == []
  {
    if n > 0 {
      ChosenOfPadding(n - 1);
      assert Repeat(Undefined, n)[1..] == Repeat(Undefined, n - 1);
    }
  }

  lemma {:induction false} TransposedList(ts: seq<Indexer>)
    ensures var ds := Defs(ts);
      && Chosen(Pick(ds, ts, true)) == Chosen(ts) && Chosen(Pick(ds, ts, false)) == []
      && Defs(Pick(ds, ts, true)) == Repeat(true, Count(ds)) && Defs(Pick(ds, ts, false)) == Repeat(false, |ds| - Count(ds))
  {
    if ts != [] {
      TransposedList(ts[1..]);
      var ds := Defs(ts);
      assert ds[1..] == Defs(ts[1..]);
      assert Pick(ds, ts, ds[0])[1..] == Pick(ds[1..], ts[1..], ds[0]);
      assert Pick(ds, ts, !ds[0]) == Pick(ds[1..], ts[1..], !ds[0]);
    }
  }

  lemma {:induction false} FrontBlock(k: nat, m: nat)
    ensures Repeat(true, k) + Repeat(false, m) == Block(0, k, m)
  {
    if k == 0 {
      assert Repeat(true, k) + Repeat(false, m) == Repeat(false, m);
    } else {
      FrontBlock(k - 1, m);
      assert Repeat(true, k) + Repeat(false, m) == [true] + (Repeat(true, k - 1) + Repeat(false, m));
    }
  }

  /** The transposed list has its defined entries, in order, as a block in front. */
  lemma TransposedFacts(ts: seq<Indexer>)
    ensures var ds := Defs(ts);
      var js := Pick(ds, ts, true) + Pick(ds, ts, false);
      Defs(js) == Block(0, Count(ds), |ds| - Count(ds)) && Chosen(js) == Chosen(ts)
  {
    var ds := Defs(ts);
    TransposedList(ts);
    DefsAppend(Pick(ds, ts, true), Pick(ds, ts, false));
    ChosenAppend(Pick(ds, ts, true), Pick(ds, ts, false));
    assert Chosen(ts) + [] == Chosen(ts);
    FrontBlock(Count(ds), |ds| - Count(ds));
  }

  lemma {:induction false} ChosenMember(ts: seq<Indexer>, k: nat)
    requires k < |ts| && ts[k].Defined?
    ensures AllInt32(Chosen(ts)) ==> ts[k].tensor.dtype.Int32?
    ensures Count(Defs(ts)) > 0
  {
    if k > 0 {
      ChosenMember(ts[1..], k - 1);
      if ts[0].Defined? {
        assert Chosen(ts)[1..] == Chosen(ts[1..]);
      } else {
        assert Chosen(ts) == Chosen(ts[1..]);
      }
    } else {
      assert Chosen(ts)[0] == ts[0].tensor;
    }
  }

  /** A list longer than the rank shows an int64 column to the int32 check. */
  lemma OverflowIsNotInt32(e: seq<Indexer>, shape: seq<nat>, n: nat)
    requires exists k :: 0 <= k < n && k < |e| && e[k].Defined? && e[k].tensor.dtype.Int64?
    requires n <= |e|
    ensures !AllInt32(Chosen(ExpandAll(e, shape))) && !AllInt32(Chosen(ExpandAll(e, shape)[..n]))
  {
    var k :| 0 <= k < n && e[k].Defined? && e[k].tensor.dtype.Int64?;
    ExpandAllAt(e, shape, k);
    ChosenMember(ExpandAll(e, shape), k);
    ChosenMember(ExpandAll(e, shape)[..n], k);
  }

  lemma {:induction false} ExpandAllAt(e: seq<Indexer>, shape: seq<nat>, k: nat)
    requires k < |e| && e[k].Defined?
    ensures ExpandAll(e, shape)[k].Defined? && ExpandAll(e, shape)[k].tensor.dtype == e[k].tensor.dtype
  {
    if k > 0 {
      ExpandAllAt(e[1..], shape, k - 1);
    }
  }

  lemma {:induction false} ExpandAllPadded(e: seq<Indexer>, shape: seq<nat>, n: nat)
    ensures ExpandAll(e + Repeat(Undefined, n), shape) == ExpandAll(e, shape) + Repeat(Undefined, n)
  {
    if e != [] {
      ExpandAllPadded(e[1..], shape, n);
      var more := Repeat(Undefined, n);
      TailAppend<Indexer>(e, more);
      var head := if e[0].Undefined? then Undefined else Defined(ExpandTo(e[0].tensor, shape));
      Associate<Indexer>([head], ExpandAll(e[1..], shape), more);
    } else {
      assert e + Repeat(Undefined, n) == Repeat(Undefined, n);
      ExpandPadding(shape, n);
    }
  }

  lemma {:induction false} ExpandPadding(shape: seq<nat>, n: nat)
    ensures ExpandAll(Repeat(Undefined, n), shape) == Repeat(Undefined, n)
  {
    if n > 0 {
      ExpandPadding(shape, n - 1);
    }
  }

  lemma {:induction false} RepeatSnoc(n: nat)
    ensures Repeat(Undefined, n) + [Undefined] == Repeat(Undefined, n + 1)
  {
    if n > 0 {
      RepeatSnoc(n - 1);
    }
  }

  method MakeInfo(self: View, orig: seq<Indexer>) returns (r: Result<AdvancedIndex>)
    requires |orig| <= |self.sizes|
    // the adjacency scan is only meaningful with some defined index
    requires exists t :: t in orig && Indexes(t)
    ensures r.Ok? <==> Accepted(self, orig)
    ensures r.Ok? ==>
      var e := Expanded(self.sizes, orig, []).value;
      PlansNaiveIndexing(self, Padded(e, |self.sizes|), Adjacent(Defs(Padded(e, |self.sizes|))), CommonShape(Chosen(e), []).value, r.value)
  {
    if !TypesAllowed(orig) {
      return Err(BadIndexType);
    }
    var expanded := ExpandTensors(self, orig);
    if expanded.Err? {
      return Err(expanded.error);
    }
    var e := expanded.value;
    var common := CommonShape(Chosen(e), []);
    if common.None? {
      return Err(NotBroadcastable);
    }
    var indices := ExpandAll(e, common.value);
    ghost var broadcast := indices;
    while |indices| < |self.sizes|
      invariant |e| <= |indices| <= Max(|e|, |self.sizes|)
      invariant indices == broadcast + Repeat(Undefined, |indices| - |e|)
    {
      RepeatSnoc(|indices| - |e|);
      indices := indices + [Undefined];
    }
    PaddedList(self, orig, e, common.value, indices);
    ghost var us := indices;
    var view := self;
    if !HasContiguousSubspace(Defs(indices)) {
      view, indices := TransposeToFront(self, indices);
    }
    ArrangedChecks(self, orig, e, common.value, us, Adjacent(Defs(us)), view, indices);
    if !AllOn(Chosen(indices), view.device) {
      return Err(WrongDevice);
    }
    if !AllInt32(Chosen(indices)) {
      return Err(NotInt32);
    }
    ArrangedOutcome(self, Padded(e, |self.sizes|), Adjacent(Defs(Padded(e, |self.sizes|))), common.value, view, Defs(indices), Chosen(indices));
    r := BuildAdvancedIndex(view, indices);
  }

  /** The constructor's result on the arranged arguments. */
  lemma ArrangedOutcome(self: View, ts: seq<Indexer>, adjacent: bool, shape: seq<nat>, view: View, flags: seq<bool>, chosen: seq<Tensor>)
    requires |ts| == |self.sizes| && Count(Defs(ts)) > 0 && (adjacent ==> IsBlock(Defs(ts)))
    requires view == ArrangedView(self, Defs(ts), adjacent) && chosen == Chosen(ExpandAll(ts, shape))
    requires flags == ArrangedFlags(Defs(ts), adjacent)
    ensures |flags| == |view.sizes| && |chosen| == Count(flags)
    ensures Plan(view, flags, chosen).Err? <==> 0 in Pick<nat>(Defs(ts), self.sizes, true) && 0 !in shape
    ensures Plan(view, flags, chosen).Ok? ==> PlansNaiveIndexing(self, ts, adjacent, shape, Plan(view, flags, chosen).value)
  {
    var p, k := InsertAt(Defs(ts), adjacent), Count(Defs(ts));
    ArrangementIsPrepared(self, ts, adjacent, shape);
    FlagsAreBlock(Defs(ts), adjacent);
    var m := Trail(Defs(ts), p);
    PlanOfBlock(view, p, k, m, chosen);
    BlockOutcome(self, ts, adjacent, shape, view, p, k, chosen);
  }

  lemma FlagsAreBlock(defs: seq<bool>, adjacent: bool)
    requires adjacent ==> IsBlock(defs)
    ensures InsertAt(defs, adjacent) + Count(defs) <= |defs|
    ensures ArrangedFlags(defs, adjacent) == BlockAt(defs, InsertAt(defs, adjacent))
  {
  }

  lemma BlockOutcome(self: View, ts: seq<Indexer>, adjacent: bool, shape: seq<nat>, view: View, p: nat, k: nat, chosen: seq<Tensor>)
    requires |ts| == |self.sizes| && Prepared(self, ts, adjacent, shape, view, p, k, chosen)
    ensures BlockPlan(view, p, k, chosen).Err? <==> 0 in Pick<nat>(Defs(ts), self.sizes, true) && 0 !in shape
    ensures BlockPlan(view, p, k, chosen).Ok? ==> PlansNaiveIndexing(self, ts, adjacent, shape, BlockPlan(view, p, k, chosen).value)
  {
    LastOfShaped(chosen, shape, []);
    if BlockPlan(view, p, k, chosen).Ok? {
      PlanMeansNaive(self, ts, adjacent, shape, view, p, k, chosen);
    }
  }

  /** The broadcast and padded list is the expansion of the padded list, and indexes something. */
  lemma PaddedList(self: View, orig: seq<Indexer>, e: seq<Indexer>, shape: seq<nat>, indices: seq<Indexer>)
    requires Expanded(self.sizes, orig, []) == Ok(e) && exists t :: t in orig && Indexes(t)
    requires |indices| == Max(|e|, |self.sizes|) && indices == ExpandAll(e, shape) + Repeat(Undefined, |indices| - |e|)
    ensures var ts := Padded(e, |self.sizes|);
      && indices == ExpandAll(ts, shape) && Defs(indices) == Defs(ts)
      && true in Defs(ts) && Count(Defs(ts)) > 0
      && (HasContiguousSubspace(Defs(ts)) <==> Adjacent(Defs(ts)))
      && (Adjacent(Defs(ts)) ==> IsBlock(Defs(ts)))
  {
    var ts := Padded(e, |self.sizes|);
    assert indices == ExpandAll(ts, shape) by {
      var n := |indices| - |e|;
      assert ts == e + Repeat(Undefined, n);
      ExpandAllPadded(e, shape, n);
    }
    assert Defs(indices) == Defs(ts) by {
      ExpandAllKeeps(ts, shape, 0);
    }
    ExpandedHasIndex(self.sizes, orig, e, |self.sizes|);
    AdjacencyFacts(Defs(ts));
  }

  lemma AdjacencyFacts(defs: seq<bool>)
    requires Count(defs) > 0
    ensures true in defs && (HasContiguousSubspace(defs) <==> Adjacent(defs)) && (Adjacent(defs) ==> IsBlock(defs))
  {
    LeadAndCount(defs);
    ContiguousIffAdjacent(defs);
    if Adjacent(defs) {
      AdjacentIsOneBlock(defs);
    }
  }

  lemma AdjacentIsOneBlock(defs: seq<bool>)
    requires Adjacent(defs) && Count(defs) > 0
    ensures IsBlock(defs)
  {
    AdjacentIsBlock(defs);
    SameBlock(Lead(defs), Count(defs), |defs| - Lead(defs) - Count(defs), Trail(defs, Lead(defs)));
  }

  lemma SameBlock(p: nat, k: nat, m: nat, n: nat)
    requires m == n
    ensures Block(p, k, m) == Block(p, k, n)
  {
  }

  /** The arranged list as make_info leaves it: the same list, or the transposed one. */
  predicate IsArrangement(self: View, us: seq<Indexer>, adjacent: bool, view: View, js: seq<Indexer>)
    requires |self.sizes| <= |us|
  {
    if adjacent then view == self && js == us
    else
      var ts := us[..|self.sizes|];
      var defs := Defs(ts);
      && js == Pick(defs, ts, true) + Pick(defs, ts, false)
      && view == self.(sizes := Pick<nat>(defs, self.sizes, true) + Pick<nat>(defs, self.sizes, false),
                       strides := Pick<int>(defs, self.strides, true) + Pick<int>(defs, self.strides, false))
  }

  /** The device and int32 checks see the expanded list's tensors; a list longer than the rank
      fails the int32 check. */
  lemma ArrangedChecks(self: View, orig: seq<Indexer>, e: seq<Indexer>, shape: seq<nat>, us: seq<Indexer>, adjacent: bool, view: View, js: seq<Indexer>)
    requires |orig| <= |self.sizes| && Expanded(self.sizes, orig, []) == Ok(e)
    requires us == ExpandAll(Padded(e, |self.sizes|), shape) && IsArrangement(self, us, adjacent, view, js)
    ensures view.device == self.device
    ensures |e| > |self.sizes| ==> !AllInt32(Chosen(js))
    ensures |e| <= |self.sizes| ==>
      var defs := Defs(Padded(e, |self.sizes|));
      && Chosen(js) == Chosen(us) && Defs(js) == ArrangedFlags(defs, adjacent) && view == ArrangedView(self, defs, adjacent)
      && (AllOn(Chosen(js), self.device) <==> AllOn(Chosen(e), self.device))
      && (AllInt32(Chosen(js)) <==> AllInt32(Chosen(e)))
  {
    if |e| > |self.sizes| {
      TransposedFacts(us[..|self.sizes|]);
      ExpandedGrowth(self.sizes, orig, []);
      OverflowIsNotInt32(e, shape, |self.sizes|);
    } else {
      ArrangedWithinRank(self, Padded(e, |self.sizes|), shape, us, adjacent, view, js);
      ExpandAllKeeps(Padded(e, |self.sizes|), shape, self.device);
      ChosenOfPadded(e, |self.sizes|);
    }
  }

  lemma ArrangedWithinRank(self: View, ts: seq<Indexer>, shape: seq<nat>, us: seq<Indexer>, adjacent: bool, view: View, js: seq<Indexer>)
    requires |ts| == |self.sizes| && us == ExpandAll(ts, shape) && IsArrangement(self, us, adjacent, view, js)
    ensures Chosen(js) == Chosen(us) && Defs(js) == ArrangedFlags(Defs(ts), adjacent) && view == ArrangedView(self, Defs(ts), adjacent)
  {
    assert us[..|self.sizes|] == us;
    ExpandAllKeeps(ts, shape, 0);
    TransposedFacts(us);
    SameBlock(0, Count(Defs(ts)), |Defs(ts)| - Count(Defs(ts)), Trail(Defs(ts), 0));
  }

  lemma ExpandedHasIndex(sizes: seq<nat>, orig: seq<Indexer>, e: seq<Indexer>, n: nat)
    requires Expanded(sizes, orig, []) == Ok(e) && exists t :: t in orig && Indexes(t)
    ensures Count(Defs(Padded(e, n))) > 0
  {
    ExpandedGrowth(sizes, orig, []);
    var t :| t in e && t.Defined?;
    var k :| 0 <= k < |e| && e[k] == t;
    ChosenMember(Padded(e, n), k);
  }

  lemma ChosenOfPadded(e: seq<Indexer>, n: nat)
    ensures Chosen(Padded(e, n)) == Chosen(e)
  {
    if |e| < n {
      ChosenAppend(e, Repeat(Undefined, n - |e|));
      ChosenOfPadding(n - |e|);
    }
  }
}
