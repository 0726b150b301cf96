/** The CPU fallback's second attempt for half precision: half arguments are replaced by float
    copies, the operator runs on those, and written arguments are rounded back. */
module HalfRetry {
  import opened Options

  datatype Dtype = Half | Float | OtherType(n: nat)

  datatype Value = Value(dtype: Dtype, shape: seq<nat>, data: seq<real>)

  /** Tensors by identity. */
  type Heap = map<nat, Value>

  /** Conversion of one element to a type. */
  type Cast = (Dtype, real) -> real

  function Convert(cast: Cast, v: Value, d: Dtype): Value {
    Value(d, v.shape, seq(|v.data|, i requires 0 <= i < |v.data| => cast(d, v.data[i])))
  }

  /** A stack argument: a tensor has one slot, a tensor list several, anything else none; an
      undefined tensor leaves its slot empty. */
  datatype Arg = TensorArg(id: Option<nat>) | ListArg(ids: seq<Option<nat>>) | OtherArg

  function Size(a: Arg): nat { if a.TensorArg? then 1 else if a.ListArg? then |a.ids| else 0 }

  function At(a: Arg, j: nat): Option<nat> {
    if a.TensorArg? && j == 0 then a.id else if a.ListArg? && j < |a.ids| then a.ids[j] else None
  }

  function Slot(args: seq<Arg>, i: nat, j: nat): Option<nat> { if i < |args| then At(args[i], j) else None }

  ghost predicate Known(h: Heap, args: seq<Arg>) { forall i: nat, j: nat :: Slot(args, i, j).Some? ==> Slot(args, i, j).value in h }

  /** A float copy standing for the half tensor in slot (i, j). */
  datatype Copy = Copy(i: nat, j: nat, id: nat)

  /** Slot (i, j) after conversion: half tensors are replaced by a float copy of their value that
      is entered in the copy list, everything else is untouched. */
  predicate SlotConverted(cast: Cast, h: Heap, h': Heap, before: Option<nat>, after: Option<nat>, i: nat, j: nat, copies: seq<Copy>) {
    if before.Some? && before.value in h && h[before.value].dtype.Half? then
      && after.Some? && after.value !in h && after.value in h' && Copy(i, j, after.value) in copies
      && h'[after.value] == Convert(cast, h[before.value], Float)
    else after == before
  }

  ghost predicate Extends(h: Heap, h': Heap) { forall t :: t in h ==> t in h' && h'[t] == h[t] }

  ghost predicate Bounded(h: Heap, next: nat) { forall t :: t in h ==> t < next }

  /** Different slots get different copies. */
  ghost predicate OwnCopies(h: Heap, args: seq<Arg>) {
    forall i: nat, j: nat, k: nat, l: nat ::
      Slot(args, i, j).Some? && Slot(args, i, j) == Slot(args, k, l) && Slot(args, i, j).value !in h ==> i == k && j == l
  }

  predicate FromSlot(h: Heap, args: seq<Arg>, args': seq<Arg>, c: Copy) {
    && Slot(args, c.i, c.j).Some? && Slot(args, c.i, c.j).value in h && h[Slot(args, c.i, c.j).value].dtype.Half?
    && Slot(args', c.i, c.j) == Some(c.id) && c.id !in h
  }

  predicate SameSizes(args: seq<Arg>, args': seq<Arg>) {
    |args'| == |args| && forall i :: 0 <= i < |args| ==> Size(args'[i]) == Size(args[i])
  }

  /** The conversion of a whole argument list. */
  ghost predicate Converted(cast: Cast, h: Heap, h': Heap, args: seq<Arg>, args': seq<Arg>, copies: seq<Copy>) {
    && Extends(h, h') && SameSizes(args, args') && OwnCopies(h, args')
    && (forall i: nat, j: nat :: SlotConverted(cast, h, h', Slot(args, i, j), Slot(args', i, j), i, j, copies))
    && (forall c :: c in copies ==> FromSlot(h, args, args', c))
  }

  class Store {
    var heap: Heap
    var next: nat
    const cast: Cast

    ghost predicate Valid() reads this { Bounded(heap, next) }

    /** t.to(Float) as a new tensor. */
    method CopyAsFloat(t: nat) returns (c: nat)
      requires Valid() && t in heap
      modifies this
      ensures Valid() && c == old(next) && next == c + 1
      ensures heap == old(heap)[c := Convert(cast, old(heap)[t], Float)]
    {
      c := next;
      heap := heap[c := Convert(cast, heap[t], Float)];
      next := next + 1;
    }

    /** The inner loop over a tensor list. */
    method ConvertList(ids: seq<Option<nat>>, i: nat) returns (r: seq<Option<nat>>, copies: seq<Copy>)
      requires Valid() && forall j :: 0 <= j < |ids| && ids[j].Some? ==> ids[j].value in heap
      modifies this
      ensures Valid() && next >= old(next) && ListPartway(cast, old(heap), heap, ids, r, copies, i, |ids|, old(next), next)
    {
      r, copies := ids, [];
      for j := 0 to |ids|
        invariant Valid() && next >= old(next) && ListPartway(cast, old(heap), heap, ids, r, copies, i, j, old(next), next)
      {
        ghost var now, from, before, copied := heap, next, r, copies;
        if ids[j].Some? && heap[ids[j].value].dtype.Half? {
          var c := CopyAsFloat(ids[j].value);
          r := r[j := Some(c)];
          copies := copies + [Copy(i, j, c)];
        }
        ListStep(cast, old(heap), now, heap, ids, before, r, copied, copies, i, j, old(next), from, next);
      }
    }

    /** One argument. */
    method ConvertArg(a: Arg, i: nat) returns (b: Arg, copies: seq<Copy>)
      requires Valid() && forall j: nat :: At(a, j).Some? ==> At(a, j).value in heap
      modifies this
      ensures Valid() && next >= old(next)
      ensures ArgConverted(cast, old(heap), heap, i, a, b, copies, old(next), next)
    {
      b, copies := a, [];
      match a {
        case TensorArg(id) =>
          assert At(a, 0) == id;
          if id.Some? && heap[id.value].dtype.Half? {
            var c := CopyAsFloat(id.value);
            copies := [Copy(i, 0, c)];
            b := TensorArg(Some(c));
          }
        case ListArg(ids) =>
          assert forall j: nat :: j < |ids| ==> At(a, j) == ids[j];
          var r;
          r, copies := ConvertList(ids, i);
          b := ListArg(r);
        case OtherArg =>
      }
    }

    /** convert_tensor_to_f32: the copies of tensors and of list elements are listed apart. */
    method ConvertTensorToF32(args: seq<Arg>) returns (r: seq<Arg>, tensors: seq<Copy>, lists: seq<Copy>)
      requires Valid() && Known(heap, args)
      modifies this
      ensures Valid() && next >= old(next) && Converted(cast, old(heap), heap, args, r, tensors + lists)
      ensures Ordered(args, tensors + lists)
    {
      r, tensors, lists := args, [], [];
      for i := 0 to |args|
        invariant Valid() && next >= old(next) && Partway(cast, old(heap), heap, args, r, tensors + lists, i, old(next), next)
        invariant Listed(args, tensors, lists, i)
      {
        ghost var now, from, before, copied := heap, next, r, tensors + lists;
        OthersKnown(cast, old(heap), now, args, r, copied, i, old(next), from);
        var b, copies := ConvertArg(args[i], i);
        r := r[i := b];
        ListedStep(args, tensors, lists, copies, i);
        if args[i].TensorArg? {
          tensors := tensors + copies;
        } else {
          lists := lists + copies;
        }
        PartwayStep(cast, old(heap), now, heap, args, before, copied, i, old(next), from, next, b, copies, tensors + lists);
      }
      ListedIsOrdered(args, tensors, lists, |args|);
    }

    /** Rounds the copies of written arguments back into their tensors, resizing them: first those
        of tensors, then those of list elements. A tensor with several copies keeps the last. */
    method WriteBack(ghost h: Heap, args: seq<Arg>, writes: seq<bool>, copies: seq<Copy>)
      requires Valid() && |writes| == |args| && forall c :: c in copies ==> Returnable(h, heap, args, c)
      modifies this`heap
      ensures Valid() && Restored(cast, old(heap), heap, args, writes, copies)
    {
      for x := 0 to |copies|
        invariant Valid() && Restored(cast, old(heap), heap, args, writes, copies[..x])
      {
        var c := copies[x];
        ghost var now := heap;
        Due(h, old(heap), now, args, writes, copies, x);
        if writes[c.i] {
          var t := Slot(args, c.i, c.j).value;
          heap := heap[t := Convert(cast, heap[c.id], Half)];
        }
        RestoreStep(cast, h, old(heap), now, heap, args, writes, copies, x);
      }
      assert copies[..|copies|] == copies;
    }

    /** Converts one output to the type the meta run gave it. */
    method FixTensor(t: nat, d: Dtype) returns (r: nat)
      requires Valid() && t in heap
      modifies this
      ensures Valid() && Extends(old(heap), heap) && r in heap && heap[r] == AsType(cast, old(heap)[t], d)
    {
      r := t;
      if heap[t].dtype != d {
        r := next;
        heap := heap[r := Convert(cast, heap[t], d)];
        next := next + 1;
      }
    }

    /** Every defined output tensor gets the type of the meta run. */
    method FixList(ids: seq<Option<nat>>, meta: seq<Dtype>) returns (r: seq<Option<nat>>)
      requires Valid() && |meta| == |ids| && forall j :: 0 <= j < |ids| && ids[j].Some? ==> ids[j].value in heap
      modifies this
      ensures Valid() && Extends(old(heap), heap) && |r| == |ids|
      ensures forall j :: 0 <= j < |ids| ==> SlotFixed(cast, old(heap), heap, ids[j], r[j], meta[j])
    {
      r := ids;
      for j := 0 to |ids|
        invariant Valid() && Extends(old(heap), heap) && |r| == |ids|
        invariant forall k :: 0 <= k < j ==> SlotFixed(cast, old(heap), heap, ids[k], r[k], meta[k])
        invariant forall k :: j <= k < |ids| ==> r[k] == ids[k]
      {
        if ids[j].Some? {
          var t := FixTensor(ids[j].value, meta[j]);
          r := r[j := Some(t)];
        }
      }
    }

    /** The operator stores its results for argument i. */
    method StoreResults(op: Operator, inputs: Values, args: seq<Arg>, writes: seq<bool>, i: nat)
      requires |writes| == |args| && i < |args| && writes[i] && DistinctWrites(args, writes) && Known(heap, args) && Valid()
      modifies this`heap
      ensures Valid() && ResultsStored(op, inputs, old(heap), heap, args, i, Size(args[i]))
    {
      for j := 0 to Size(args[i])
        invariant Valid() && ResultsStored(op, inputs, old(heap), heap, args, i, j)
      {
        var t := Slot(args, i, j);
        if t.Some? {
          heap := heap[t.value := op.result(inputs, i, j)];
        }
      }
    }

    /** The operator on the (converted) arguments: written arguments are updated, outputs are new. */
    method RunOperator(op: Operator, args: seq<Arg>, writes: seq<bool>) returns (outs: seq<Option<nat>>)
      requires Valid() && |writes| == |args| && DistinctWrites(args, writes) && Known(heap, args)
      modifies this
      ensures Valid() && OperatorRan(old(heap), heap, args, writes, op.ResultOn(Inputs(old(heap), args)))
      ensures |outs| == op.arity && forall k :: 0 <= k < |outs| ==>
        OutputStored(op, Inputs(old(heap), args), old(heap), heap, outs[k], k)
    {
      var inputs := Inputs(heap, args);
      for i := 0 to |args|
        invariant Valid() && AllStored(op, inputs, old(heap), heap, args, writes, i)
      {
        ghost var now := heap;
        if writes[i] {
          StoreResults(op, inputs, args, writes, i);
        }
        StoredStep(op, inputs, old(heap), now, heap, args, writes, i);
      }
      AllStoredRan(op, inputs, old(heap), heap, args, writes);
      ghost var done := heap;
      outs := [];
      for k := 0 to op.arity
        invariant Valid() && Extends(done, heap) && |outs| == k
        invariant forall x :: 0 <= x < k ==> OutputStored(op, inputs, old(heap), heap, outs[x], x)
      {
        var v := op.output(inputs, k);
        if v.Some? {
          assert next !in old(heap);
          heap := heap[next := v.value];
          outs := outs + [Some(next)];
          next := next + 1;
        } else {
          outs := outs + [None];
        }
      }
    }

    /** The whole retry: convert the half arguments, run the operator on the copies, round written
        ones back, and give the outputs the types of the meta run. */
    method Retry(op: Operator, args: seq<Arg>, writes: seq<bool>) returns (outs: seq<Option<nat>>)
      requires Valid() && |writes| == |args| && DirectWritesDistinct(heap, args, writes) && Known(heap, args)
      modifies this
      ensures Valid() && WrittenBack(cast, op, old(heap), heap, args, writes)
      // outputs have the types of the meta run on the caller's own types
      ensures |outs| == op.arity && forall k :: 0 <= k < |outs| ==>
        OutputFixed(cast, op, FloatInputs(cast, old(heap), args), Metas(old(heap), args), heap, outs[k], k)
    {
      ghost var h := heap;
      var shapes := Metas(heap, args);
      var metas := seq(op.arity, (k: nat) => op.meta(shapes, k));
      var copied, tensors, lists := ConvertTensorToF32(args);
      ghost var h1, copies := heap, tensors + lists;
      ConvertedReady(cast, h, h1, args, copied, copies, writes);
      ConvertedInputs(cast, h, h1, args, copied, copies);
      var raw := RunOperator(op, copied, writes);
      ghost var h2 := heap;
      WriteBack(h, args, writes, tensors + lists);
      ghost var h3 := heap;
      OutputsSurvive(op, FloatInputs(cast, h, args), cast, h, h1, h2, h3, args, copied, copies, writes, raw);
      outs := FixList(raw, metas);
      assert forall k :: 0 <= k < |outs| ==> SlotFixed(cast, h3, heap, raw[k], outs[k], op.meta(shapes, k));
      RetryFacts(cast, op, h, h1, h2, h3, args, copied, copies, writes);
    }
  }

  function AsType(cast: Cast, v: Value, d: Dtype): Value { if v.dtype == d then v else Convert(cast, v, d) }

  predicate SlotFixed(cast: Cast, h: Heap, h': Heap, before: Option<nat>, after: Option<nat>, d: Dtype) {
    && before.Some? == after.Some?
    && (before.Some? ==> before.value in h && after.value in h' && h'[after.value] == AsType(cast, h[before.value], d))
  }

  /** No tensor is written through two slots. */
  ghost predicate DistinctWrites(args: seq<Arg>, writes: seq<bool>)
    requires |writes| == |args|
  {
    forall i: nat, j: nat, k: nat, l: nat ::
      i < |writes| && k < |writes| && writes[i] && writes[k] && Slot(args, i, j).Some? && Slot(args, i, j) == Slot(args, k, l) ==>
        i == k && j == l
  }

  /** No tensor that the operator itself writes, one that is not half, is written through two slots. */
  ghost predicate DirectWritesDistinct(h: Heap, args: seq<Arg>, writes: seq<bool>)
    requires |writes| == |args|
  {
    forall i: nat, j: nat, k: nat, l: nat, t: nat ::
      t in h && !h[t].dtype.Half? && WrittenAt(args, writes, i, j, t) && WrittenAt(args, writes, k, l, t) ==> i == k && j == l
  }

  /** Slot (i, j) is the last one through which t is written. */
  ghost predicate LastWrite(args: seq<Arg>, writes: seq<bool>, i: nat, j: nat, t: nat) {
    && WrittenAt(args, writes, i, j, t)
    && forall k: nat, l: nat :: WrittenAt(args, writes, k, l, t) ==> (k == i && l == j) || Precedes(args, k, l, i, j)
  }

  /** What the retry leaves of the caller's tensors. */
  ghost predicate WrittenBack(cast: Cast, op: Operator, h: Heap, h': Heap, args: seq<Arg>, writes: seq<bool>) {
    var inputs := FloatInputs(cast, h, args);
    // a written half tensor holds the rounded result, on float values, of the last slot it is written through
    && (forall i: nat, j: nat, t: nat :: t in h && h[t].dtype.Half? && LastWrite(args, writes, i, j, t) ==>
      t in h' && h'[t] == Convert(cast, op.result(inputs, i, j), Half))
    // other written tensors hold the result itself
    && (forall i: nat, j: nat, t: nat :: t in h && !h[t].dtype.Half? && WrittenAt(args, writes, i, j, t) ==>
      t in h' && h'[t] == op.result(inputs, i, j))
    // nothing else changes
    && (forall t :: t in h && !Written(args, writes, t) ==> t in h' && h'[t] == h[t])
  }

  /** A copy and the tensor it stands for both exist, and the copy is new. */
  predicate Returnable(h: Heap, now: Heap, args: seq<Arg>, c: Copy) {
    && c.i < |args| && Slot(args, c.i, c.j).Some? && Slot(args, c.i, c.j).value in h && Slot(args, c.i, c.j).value in now
    && c.id !in h && c.id in now
  }

  predicate Target(args: seq<Arg>, writes: seq<bool>, c: Copy, t: nat) {
    c.i < |writes| && writes[c.i] && Slot(args, c.i, c.j) == Some(t)
  }

  /** Copy x is the last one that goes to t. */
  ghost predicate LastFor(args: seq<Arg>, writes: seq<bool>, copies: seq<Copy>, x: nat, t: nat) {
    && x < |copies| && Target(args, writes, copies[x], t)
    && forall y :: x < y < |copies| ==> !Target(args, writes, copies[y], t)
  }

  /** Write-back: a target holds the rounding of its last copy, everything else is as it was. */
  ghost predicate Restored(cast: Cast, h: Heap, h': Heap, args: seq<Arg>, writes: seq<bool>, copies: seq<Copy>) {
    && h'.Keys == h.Keys
    && (forall x: nat, t: nat :: LastFor(args, writes, copies, x, t) ==> t in h' && copies[x].id in h && h'[t] == Convert(cast, h[copies[x].id], Half))
    && (forall t :: t in h && (forall c :: c in copies ==> !Target(args, writes, c, t)) ==> h'[t] == h[t])
  }

  /** The next copy and the tensor it stands for. */
  lemma Due(h: Heap, h0: Heap, now: Heap, args: seq<Arg>, writes: seq<bool>, copies: seq<Copy>, x: nat)
    requires x < |copies| && (forall c :: c in copies ==> Returnable(h, h0, args, c)) && now.Keys == h0.Keys
    ensures copies[x].i < |args| && Slot(args, copies[x].i, copies[x].j).Some? && copies[x].id in now
    ensures Slot(args, copies[x].i, copies[x].j).value in now
  {
    assert copies[x] in copies;
  }

  lemma PrefixFacts(copies: seq<Copy>, x: nat)
    requires x < |copies|
    ensures copies[x] in copies && copies[..x + 1] == copies[..x] + [copies[x]] && forall d :: d in copies[..x] ==> d in copies
  {
  }

  lemma RestoreStep(cast: Cast, h: Heap, h0: Heap, now: Heap, h': Heap, args: seq<Arg>, writes: seq<bool>, copies: seq<Copy>, x: nat)
    requires |writes| == |args| && x < |copies|
    requires forall c :: c in copies ==> Returnable(h, h0, args, c)
    requires Restored(cast, h0, now, args, writes, copies[..x])
    requires var c := copies[x];
      && c.i < |args| && Slot(args, c.i, c.j).Some? && c.id in now
      && h' == if writes[c.i] then now[Slot(args, c.i, c.j).value := Convert(cast, now[c.id], Half)] else now
    ensures Restored(cast, h0, h', args, writes, copies[..x + 1])
  {
    PrefixFacts(copies, x);
    RestoreOne(cast, h, h0, now, h', args, writes, copies[..x], copies[x]);
  }

  /** A copy's cell is no one's target. */
  lemma CopyKept(cast: Cast, h: Heap, h0: Heap, now: Heap, args: seq<Arg>, writes: seq<bool>, done: seq<Copy>, c: Copy)
    requires Restored(cast, h0, now, args, writes, done) && c.id in h0 && c.id !in h
    requires forall d :: d in done ==> Returnable(h, h0, args, d)
    ensures now[c.id] == h0[c.id]
  {
    forall d | d in done ensures !Target(args, writes, d, c.id) {
      assert Returnable(h, h0, args, d);
    }
  }

  lemma LastBefore(args: seq<Arg>, writes: seq<bool>, done: seq<Copy>, c: Copy, x: nat, t: nat)
    requires x < |done| && LastFor(args, writes, done + [c], x, t)
    ensures LastFor(args, writes, done, x, t) && !Target(args, writes, c, t)
  {
    var all := done + [c];
    assert all[|done|] == c && forall y :: x <= y < |done| ==> all[y] == done[y];
  }

  lemma RestoreOne(cast: Cast, h: Heap, h0: Heap, now: Heap, h': Heap, args: seq<Arg>, writes: seq<bool>, done: seq<Copy>, c: Copy)
    requires |writes| == |args| && Restored(cast, h0, now, args, writes, done)
    requires Returnable(h, h0, args, c) && forall d :: d in done ==> Returnable(h, h0, args, d)
    requires h' == if writes[c.i] then now[Slot(args, c.i, c.j).value := Convert(cast, now[c.id], Half)] else now
    ensures Restored(cast, h0, h', args, writes, done + [c])
  {
    CopyKept(cast, h, h0, now, args, writes, done, c);
    var all := done + [c];
    forall x: nat, u: nat | LastFor(args, writes, all, x, u)
      ensures u in h' && all[x].id in h0 && h'[u] == Convert(cast, h0[all[x].id], Half)
    {
      if x < |done| {
        LastBefore(args, writes, done, c, x, u);
      }
    }
    forall u | u in h0 && (forall d :: d in all ==> !Target(args, writes, d, u)) ensures h'[u] == h0[u] {
      assert !Target(args, writes, c, u);
      forall d | d in done ensures !Target(args, writes, d, u) {
        assert d in all;
      }
    }
  }

  /** The order in which the copies of one kind are made. */
  ghost predicate Rising(copies: seq<Copy>) { forall x, y :: 0 <= x < y < |copies| ==> Lower(copies[x], copies[y]) }

  predicate Lower(c: Copy, d: Copy) { c.i < d.i || (c.i == d.i && c.j < d.j) }

  predicate IsTensor(args: seq<Arg>, i: nat) { i < |args| && args[i].TensorArg? }

  /** Slot (i, j) is written back before slot (k, l): tensors before list elements, each kind by
      position. */
  predicate Precedes(args: seq<Arg>, i: nat, j: nat, k: nat, l: nat) {
    if IsTensor(args, i) == IsTensor(args, k) then i < k || (i == k && j < l) else IsTensor(args, i)
  }

  ghost predicate Ordered(args: seq<Arg>, copies: seq<Copy>) {
    forall x, y :: 0 <= x < y < |copies| ==> Precedes(args, copies[x].i, copies[x].j, copies[y].i, copies[y].j)
  }

  /** The two lists while the arguments before i have been converted. */
  ghost predicate Listed(args: seq<Arg>, tensors: seq<Copy>, lists: seq<Copy>, i: nat) {
    && Rising(tensors) && Rising(lists)
    && (forall x :: 0 <= x < |tensors| ==> tensors[x].i < i && IsTensor(args, tensors[x].i))
    && (forall x :: 0 <= x < |lists| ==> lists[x].i < i && !IsTensor(args, lists[x].i))
  }

  lemma ListedStep(args: seq<Arg>, tensors: seq<Copy>, lists: seq<Copy>, added: seq<Copy>, i: nat)
    requires Listed(args, tensors, lists, i) && i < |args| && Rising(added) && forall c :: c in added ==> c.i == i
    ensures if args[i].TensorArg? then Listed(args, tensors + added, lists, i + 1) else Listed(args, tensors, lists + added, i + 1)
  {
    assert forall x :: 0 <= x < |added| ==> added[x] in added;
  }

  lemma ListedIsOrdered(args: seq<Arg>, tensors: seq<Copy>, lists: seq<Copy>, i: nat)
    requires Listed(args, tensors, lists, i)
    ensures Ordered(args, tensors + lists)
  {
    var all := tensors + lists;
    forall x, y | 0 <= x < y < |all| ensures Precedes(args, all[x].i, all[x].j, all[y].i, all[y].j) {
      if y < |tensors| {
        assert Lower(tensors[x], tensors[y]);
      } else if x >= |tensors| {
        assert Lower(lists[x - |tensors|], lists[y - |tensors|]);
      }
    }
  }

  /** The elements of a list before j have been converted, the others are as they were. */
  ghost predicate ListPartway(cast: Cast, h: Heap, now: Heap, ids: seq<Option<nat>>, r: seq<Option<nat>>, copies: seq<Copy>, i: nat, j: nat, lo: nat, hi: nat) {
    && Extends(h, now) && Bounded(h, lo) && |r| == |ids| && (forall k :: 0 <= k < |ids| && ids[k].Some? ==> ids[k].value in h)
    && (forall k :: 0 <= k < |ids| && k < j ==> SlotConverted(cast, h, now, ids[k], r[k], i, k, copies))
    && (forall k :: 0 <= k < |ids| ==> r[k] == ids[k] || (r[k].Some? && lo <= r[k].value < hi))
    && (forall k :: j <= k < |ids| ==> r[k] == ids[k])
    && (forall k, l :: 0 <= k < l < |ids| && r[k].Some? && r[k] == r[l] ==> r[k].value in h)
    && (forall c :: c in copies ==> c.j < j && FromArg(h, i, ListArg(ids), ListArg(r), c)) && Rising(copies)
  }

  lemma ListStep(cast: Cast, h: Heap, now: Heap, now': Heap, ids: seq<Option<nat>>, r: seq<Option<nat>>, r': seq<Option<nat>>,
                 copies: seq<Copy>, copies': seq<Copy>, i: nat, j: nat, lo: nat, mid: nat, hi: nat)
    requires ListPartway(cast, h, now, ids, r, copies, i, j, lo, mid) && j < |ids| && lo <= mid && Bounded(now, mid)
    requires if ids[j].Some? && h[ids[j].value].dtype.Half? then
        && now' == now[mid := Convert(cast, now[ids[j].value], Float)] && hi == mid + 1
        && r' == r[j := Some(mid)] && copies' == copies + [Copy(i, j, mid)]
      else now' == now && hi == mid && r' == r && copies' == copies
    ensures ListPartway(cast, h, now', ids, r', copies', i, j + 1, lo, hi)
  {
    assert forall x :: 0 <= x < |copies| ==> copies[x] in copies;
    forall c | c in copies' ensures c.j < j + 1 && FromArg(h, i, ListArg(ids), ListArg(r'), c) {
      if c in copies {
        assert FromArg(h, i, ListArg(ids), ListArg(r), c);
      }
    }
  }

  predicate FromArg(h: Heap, i: nat, a: Arg, b: Arg, c: Copy) {
    && c.i == i && At(a, c.j).Some? && At(a, c.j).value in h && h[At(a, c.j).value].dtype.Half?
    && At(b, c.j) == Some(c.id) && c.id !in h
  }

  /** Argument i has been converted; new tensors are numbered from `lo` up to `hi`. */
  ghost predicate ArgConverted(cast: Cast, h: Heap, h': Heap, i: nat, a: Arg, b: Arg, copies: seq<Copy>, lo: nat, hi: nat) {
    && Extends(h, h') && Size(b) == Size(a)
    && (forall j: nat :: SlotConverted(cast, h, h', At(a, j), At(b, j), i, j, copies))
    && (forall j: nat :: At(b, j) == At(a, j) || (At(b, j).Some? && lo <= At(b, j).value < hi))
    && (forall j: nat, k: nat :: At(b, j).Some? && At(b, j) == At(b, k) && At(b, j).value !in h ==> j == k)
    && (forall c :: c in copies ==> FromArg(h, i, a, b, c)) && Rising(copies)
  }

  /** The arguments before i have been converted, the others are as they were. */
  ghost predicate Partway(cast: Cast, h: Heap, now: Heap, args: seq<Arg>, r: seq<Arg>, copies: seq<Copy>, i: nat, lo: nat, hi: nat) {
    && Extends(h, now) && SameSizes(args, r) && Bounded(h, lo) && Known(h, args) && OwnCopies(h, r)
    && (forall k :: i <= k < |args| ==> r[k] == args[k])
    && (forall k: nat, j: nat :: k < i ==> SlotConverted(cast, h, now, Slot(args, k, j), Slot(r, k, j), k, j, copies))
    && (forall k: nat, j: nat :: SlotPlaced(h, r, k, j, i, lo, hi))
    && (forall c :: c in copies ==> c.i < i && FromSlot(h, args, r, c))
  }

  predicate SlotPlaced(h: Heap, r: seq<Arg>, k: nat, j: nat, i: nat, lo: nat, hi: nat) {
    Slot(r, k, j).Some? ==> Slot(r, k, j).value in h || (k < i && lo <= Slot(r, k, j).value < hi)
  }

  lemma OthersKnown(cast: Cast, h: Heap, now: Heap, args: seq<Arg>, r: seq<Arg>, copies: seq<Copy>, i: nat, lo: nat, hi: nat)
    requires Partway(cast, h, now, args, r, copies, i, lo, hi) && i < |args|
    ensures forall j: nat :: At(args[i], j).Some? ==> At(args[i], j).value in now
  {
    assert forall j: nat :: At(args[i], j) == Slot(args, i, j);
  }

  /** The slots of the list with argument i replaced. */
  lemma ReplacedSlots(r: seq<Arg>, i: nat, b: Arg, k: nat, j: nat)
    requires i < |r|
    ensures Slot(r[i := b], k, j) == if k == i then At(b, j) else Slot(r, k, j)
  {
  }

  lemma PartwaySlot(cast: Cast, h: Heap, now: Heap, now': Heap, args: seq<Arg>, r: seq<Arg>, copies: seq<Copy>, i: nat,
                    lo: nat, mid: nat, hi: nat, b: Arg, added: seq<Copy>, copies': seq<Copy>, k: nat, j: nat)
    requires Partway(cast, h, now, args, r, copies, i, lo, mid) && i < |args| && lo <= mid <= hi
    requires ArgConverted(cast, now, now', i, args[i], b, added, mid, hi)
    requires forall c :: c in copies' <==> c in copies || c in added
    ensures k < i + 1 ==> SlotConverted(cast, h, now', Slot(args, k, j), Slot(r[i := b], k, j), k, j, copies')
    ensures SlotPlaced(h, r[i := b], k, j, i + 1, lo, hi)
  {
    ReplacedSlots(r, i, b, k, j);
    assert SlotPlaced(h, r, k, j, i, lo, mid);
    if k == i {
      assert Slot(args, i, j) == At(args[i], j);
      assert SlotConverted(cast, now, now', At(args[i], j), At(b, j), i, j, added);
    } else if k < i {
      assert SlotConverted(cast, h, now, Slot(args, k, j), Slot(r, k, j), k, j, copies);
    }
  }

  lemma PartwayOwn(cast: Cast, h: Heap, now: Heap, now': Heap, args: seq<Arg>, r: seq<Arg>, copies: seq<Copy>, i: nat,
                   lo: nat, mid: nat, hi: nat, b: Arg, added: seq<Copy>)
    requires Partway(cast, h, now, args, r, copies, i, lo, mid) && i < |args| && lo <= mid <= hi && Bounded(now, mid)
    requires ArgConverted(cast, now, now', i, args[i], b, added, mid, hi)
    ensures OwnCopies(h, r[i := b])
  {
    var r' := r[i := b];
    forall x: nat, y: nat, k: nat, l: nat | Slot(r', x, y).Some? && Slot(r', x, y) == Slot(r', k, l) && Slot(r', x, y).value !in h
      ensures x == k && y == l
    {
      ReplacedSlots(r, i, b, x, y);
      ReplacedSlots(r, i, b, k, l);
      assert SlotPlaced(h, r, x, y, i, lo, mid) && SlotPlaced(h, r, k, l, i, lo, mid);
      assert Slot(args, i, y) == At(args[i], y) && Slot(args, i, l) == At(args[i], l);
    }
  }

  lemma PartwayStep(cast: Cast, h: Heap, now: Heap, now': Heap, args: seq<Arg>, r: seq<Arg>, copies: seq<Copy>, i: nat,
                    lo: nat, mid: nat, hi: nat, b: Arg, added: seq<Copy>, copies': seq<Copy>)
    requires Partway(cast, h, now, args, r, copies, i, lo, mid) && i < |args| && lo <= mid <= hi && Bounded(now, mid)
    requires ArgConverted(cast, now, now', i, args[i], b, added, mid, hi)
    requires forall c :: c in copies' <==> c in copies || c in added
    ensures Partway(cast, h, now', args, r[i := b], copies', i + 1, lo, hi)
  {
    var r' := r[i := b];
    PartwayOwn(cast, h, now, now', args, r, copies, i, lo, mid, hi, b, added);
    forall k: nat, j: nat
      ensures k < i + 1 ==> SlotConverted(cast, h, now', Slot(args, k, j), Slot(r', k, j), k, j, copies')
      ensures SlotPlaced(h, r', k, j, i + 1, lo, hi)
    {
      PartwaySlot(cast, h, now, now', args, r, copies, i, lo, mid, hi, b, added, copies', k, j);
    }
    forall c | c in copies' ensures c.i < i + 1 && FromSlot(h, args, r', c) {
      ReplacedSlots(r, i, b, c.i, c.j);
      if c in copies {
        assert FromSlot(h, args, r, c);
      } else {
        assert FromArg(now, i, args[i], b, c);
        assert Slot(args, i, c.j) == At(args[i], c.j);
      }
    }
  }

  // -------------------------------------------------------------------- the operator

  /** The argument values an operator sees, slot by slot; None where a tensor is undefined. */
  type Values = seq<seq<Option<Value>>>

  /** Types and shapes, which is all a meta run sees. */
  type Shapes = seq<seq<Option<(Dtype, seq<nat>)>>>

  /** An operator: the new value of a written slot, its outputs, and the output types of its meta
      run. */
  datatype Operator = Operator(
    arity: nat, result: (Values, nat, nat) -> Value, output: (Values, nat) -> Option<Value>, meta: (Shapes, nat) -> Dtype)
  {
    function ResultOn(inputs: Values): (nat, nat) -> Value { (i: nat, j: nat) => result(inputs, i, j) }
  }

  function ValueIn(h: Heap, o: Option<nat>): Option<Value> { if o.Some? && o.value in h then Some(h[o.value]) else None }

  function Inputs(h: Heap, args: seq<Arg>): (r: Values)
    ensures |r| == |args| && forall i :: 0 <= i < |args| ==> |r[i]| == Size(args[i])
    ensures forall i, j :: 0 <= i < |args| && 0 <= j < Size(args[i]) ==> r[i][j] == ValueIn(h, At(args[i], j))
  {
    seq(|args|, i requires 0 <= i < |args| => seq(Size(args[i]), (j: nat) => ValueIn(h, At(args[i], j))))
  }

  function AsFloat(cast: Cast, v: Option<Value>): Option<Value> {
    if v.Some? && v.value.dtype.Half? then Some(Convert(cast, v.value, Float)) else v
  }

  /** The caller's argument values, half ones as floats. */
  function FloatInputs(cast: Cast, h: Heap, args: seq<Arg>): (r: Values)
    ensures |r| == |args| && forall i :: 0 <= i < |args| ==> |r[i]| == Size(args[i])
    ensures forall i, j :: 0 <= i < |args| && 0 <= j < Size(args[i]) ==> r[i][j] == AsFloat(cast, ValueIn(h, At(args[i], j)))
  {
    seq(|args|, i requires 0 <= i < |args| => seq(Size(args[i]), (j: nat) => AsFloat(cast, ValueIn(h, At(args[i], j)))))
  }

  /** convert_to_meta: types and shapes of the caller's arguments. */
  function Metas(h: Heap, args: seq<Arg>): Shapes {
    seq(|args|, i requires 0 <= i < |args| => seq(Size(args[i]), (j: nat) => MetaOf(ValueIn(h, At(args[i], j)))))
  }

  function MetaOf(v: Option<Value>): Option<(Dtype, seq<nat>)> {
    if v.Some? then Some((v.value.dtype, v.value.shape)) else None
  }

  /** The first n slots of argument i hold the results, nothing else changed. */
  ghost predicate ResultsStored(op: Operator, inputs: Values, h: Heap, now: Heap, args: seq<Arg>, i: nat, n: nat) {
    && now.Keys == h.Keys
    && (forall j: nat, t: nat :: j < n && Slot(args, i, j) == Some(t) ==> t in now && now[t] == op.result(inputs, i, j))
    && (forall t :: t in h && (forall j: nat :: j < n ==> Slot(args, i, j) != Some(t)) ==> now[t] == h[t])
  }

  /** The written arguments before i hold the results, nothing else changed. */
  ghost predicate AllStored(op: Operator, inputs: Values, h: Heap, now: Heap, args: seq<Arg>, writes: seq<bool>, i: nat) {
    && now.Keys == h.Keys
    && (forall k: nat, j: nat, t: nat :: k < i && WrittenAt(args, writes, k, j, t) ==> t in now && now[t] == op.result(inputs, k, j))
    && (forall t :: t in h && (forall k: nat, j: nat :: k < i ==> !WrittenAt(args, writes, k, j, t)) ==> now[t] == h[t])
  }

  lemma StoredStep(op: Operator, inputs: Values, h: Heap, now: Heap, now': Heap, args: seq<Arg>, writes: seq<bool>, i: nat)
    requires |writes| == |args| && i < |args| && DistinctWrites(args, writes) && AllStored(op, inputs, h, now, args, writes, i)
    requires if writes[i] then ResultsStored(op, inputs, now, now', args, i, Size(args[i])) else now' == now
    ensures AllStored(op, inputs, h, now', args, writes, i + 1)
  {
    forall k: nat, j: nat, t: nat | k < i + 1 && WrittenAt(args, writes, k, j, t) ensures t in now' && now'[t] == op.result(inputs, k, j) {
      if k == i {
        assert j < Size(args[i]);
      } else if writes[i] {
        assert forall l: nat :: l < Size(args[i]) ==> Slot(args, i, l) != Some(t);
      }
    }
    forall t | t in h && (forall k: nat, j: nat :: k < i + 1 ==> !WrittenAt(args, writes, k, j, t)) ensures now'[t] == h[t] {
      forall j: nat ensures writes[i] ==> Slot(args, i, j) != Some(t) {
        assert !WrittenAt(args, writes, i, j, t);
      }
      assert forall k: nat, j: nat :: k < i ==> !WrittenAt(args, writes, k, j, t);
    }
  }

  lemma AllStoredRan(op: Operator, inputs: Values, h: Heap, now: Heap, args: seq<Arg>, writes: seq<bool>)
    requires |writes| == |args| && AllStored(op, inputs, h, now, args, writes, |args|)
    ensures OperatorRan(h, now, args, writes, op.ResultOn(inputs))
  {
  }

  /** Output k is a new tensor holding the operator's value, or undefined. */
  predicate OutputStored(op: Operator, inputs: Values, h: Heap, now: Heap, o: Option<nat>, k: nat) {
    && o.Some? == op.output(inputs, k).Some?
    && (o.Some? ==> o.value !in h && o.value in now && now[o.value] == op.output(inputs, k).value)
  }

  predicate OutputFixed(cast: Cast, op: Operator, inputs: Values, shapes: Shapes, now: Heap, o: Option<nat>, k: nat) {
    && o.Some? == op.output(inputs, k).Some?
    && (o.Some? ==> o.value in now && now[o.value] == AsType(cast, op.output(inputs, k).value, op.meta(shapes, k)))
  }

  // ------------------------------------------------------------------- the whole retry

  /** The converted arguments are what the operator and the write-back need. */
  lemma ConvertedReady(cast: Cast, h: Heap, h1: Heap, args: seq<Arg>, args': seq<Arg>, copies: seq<Copy>, writes: seq<bool>)
    requires Converted(cast, h, h1, args, args', copies) && Known(h, args) && |writes| == |args| && DirectWritesDistinct(h, args, writes)
    ensures Known(h1, args') && DistinctWrites(args', writes)
    ensures forall c :: c in copies ==> Returnable(h, h1, args, c)
  {
    assert forall i: nat, j: nat :: SlotConverted(cast, h, h1, Slot(args, i, j), Slot(args', i, j), i, j, copies);
    assert forall c :: c in copies ==> FromSlot(h, args, args', c);
    forall c | c in copies ensures Returnable(h, h1, args, c) {
      assert SlotConverted(cast, h, h1, Slot(args, c.i, c.j), Slot(args', c.i, c.j), c.i, c.j, copies);
    }
    forall i: nat, j: nat, k: nat, l: nat | i < |writes| && k < |writes| && writes[i] && writes[k] && Slot(args', i, j).Some? &&
      Slot(args', i, j) == Slot(args', k, l)
      ensures i == k && j == l
    {
      var t := Slot(args', i, j).value;
      if t in h {
        OldTensorsStay(cast, h, h1, args, args', copies, writes, i, j, t);
        OldTensorsStay(cast, h, h1, args, args', copies, writes, k, l, t);
      }
    }
  }

  lemma ConvertedInputs(cast: Cast, h: Heap, h1: Heap, args: seq<Arg>, args': seq<Arg>, copies: seq<Copy>)
    requires Converted(cast, h, h1, args, args', copies) && Known(h, args)
    ensures Inputs(h1, args') == FloatInputs(cast, h, args)
  {
    var a, b := Inputs(h1, args'), FloatInputs(cast, h, args);
    forall i | 0 <= i < |args| ensures a[i] == b[i] {
      forall j | 0 <= j < Size(args[i]) ensures a[i][j] == b[i][j] {
        assert Slot(args, i, j) == At(args[i], j) && Slot(args', i, j) == At(args'[i], j);
        OperatorSeesFloats(cast, h, h1, args, args', copies, i, j);
      }
    }
  }

  /** Outputs are new tensors, which the write-back does not touch. */
  lemma OutputsSurvive(op: Operator, inputs: Values, cast: Cast, h: Heap, h1: Heap, h2: Heap, h3: Heap, args: seq<Arg>, args': seq<Arg>,
                       copies: seq<Copy>, writes: seq<bool>, raw: seq<Option<nat>>)
    requires Converted(cast, h, h1, args, args', copies) && Restored(cast, h2, h3, args, writes, copies)
    requires forall k :: 0 <= k < |raw| ==> OutputStored(op, inputs, h1, h2, raw[k], k)
    ensures forall k :: 0 <= k < |raw| ==> OutputStored(op, inputs, h1, h3, raw[k], k)
  {
    forall k | 0 <= k < |raw| && raw[k].Some? ensures h3[raw[k].value] == h2[raw[k].value] {
      forall c | c in copies ensures !Target(args, writes, c, raw[k].value) {
        assert FromSlot(h, args, args', c);
      }
    }
  }

  /** A written tensor has a last slot through which it is written. */
  lemma LastWriteExists(args: seq<Arg>, writes: seq<bool>, i: nat, j: nat, t: nat) returns (k: nat, l: nat)
    requires |writes| == |args| && WrittenAt(args, writes, i, j, t)
    ensures LastWrite(args, writes, k, l, t)
    decreases if IsTensor(args, i) then 1 else 0, |args| - i, Size(args[i]) - j
  {
    k, l := i, j;
    if !LastWrite(args, writes, i, j, t) {
      var x: nat, y: nat :| WrittenAt(args, writes, x, y, t) && !(x == i && y == j) && !Precedes(args, x, y, i, j);
      k, l := LastWriteExists(args, writes, x, y, t);
    }
  }

  /** Every written half slot has its own rounded result in its tensor. */
  ghost predicate EveryWriteKept(cast: Cast, op: Operator, h: Heap, h': Heap, args: seq<Arg>, writes: seq<bool>) {
    forall i: nat, j: nat, t: nat :: t in h && h[t].dtype.Half? && WrittenAt(args, writes, i, j, t) ==>
      t in h' && h'[t] == Convert(cast, op.result(FloatInputs(cast, h, args), i, j), Half)
  }

  /** The retry keeps the result of every written slot, for every operator, exactly if no tensor is
      written through two slots. */
  lemma EveryWriteKeptIff(cast: Cast, h: Heap, args: seq<Arg>, writes: seq<bool>)
    requires |writes| == |args| && Known(h, args) && DirectWritesDistinct(h, args, writes)
    ensures (forall op, h' :: WrittenBack(cast, op, h, h', args, writes) ==> EveryWriteKept(cast, op, h, h', args, writes)) <==>
      DistinctWrites(args, writes)
  {
    if DistinctWrites(args, writes) {
      forall op, h' | WrittenBack(cast, op, h, h', args, writes) ensures EveryWriteKept(cast, op, h, h', args, writes) {
        forall i: nat, j: nat, t: nat | WrittenAt(args, writes, i, j, t) ensures LastWrite(args, writes, i, j, t) {
        }
      }
    } else {
      var op := SlotOperator();
      var h' := SomeOutcome(cast, op, h, args, writes);
      AliasedWriteIsLost(cast, h, h', args, writes);
    }
  }

  /** An operator whose results tell all slots apart. */
  function SlotOperator(): Operator {
    Operator(0, (v: Values, a: nat, b: nat) => Value(Float, [a, b], []), (v: Values, n: nat) => None, (m: Shapes, n: nat) => Half)
  }

  /** A tensor written through two slots lacks the result of the first. */
  lemma AliasedWriteIsLost(cast: Cast, h: Heap, h': Heap, args: seq<Arg>, writes: seq<bool>)
    requires |writes| == |args| && Known(h, args) && DirectWritesDistinct(h, args, writes) && !DistinctWrites(args, writes)
    requires WrittenBack(cast, SlotOperator(), h, h', args, writes)
    ensures !EveryWriteKept(cast, SlotOperator(), h, h', args, writes)
  {
    var i: nat, j: nat, k: nat, l: nat :| i < |writes| && k < |writes| && writes[i] && writes[k] && Slot(args, i, j).Some? &&
      Slot(args, i, j) == Slot(args, k, l) && !(i == k && j == l);
    var t := Slot(args, i, j).value;
    assert WrittenAt(args, writes, i, j, t) && WrittenAt(args, writes, k, l, t);
    assert [i, j][0] == i && [i, j][1] == j && [k, l][0] == k && [k, l][1] == l;
  }

  /** Every call has an outcome. */
  lemma SomeOutcome(cast: Cast, op: Operator, h: Heap, args: seq<Arg>, writes: seq<bool>) returns (h': Heap)
    requires |writes| == |args| && DirectWritesDistinct(h, args, writes)
    ensures WrittenBack(cast, op, h, h', args, writes)
  {
    h' := map t | t in h :: FinalValue(cast, op, h, args, writes, t);
    forall i: nat, j: nat, t: nat | t in h && WrittenAt(args, writes, i, j, t) && (h[t].dtype.Half? ==> LastWrite(args, writes, i, j, t))
      ensures h'[t] == Stored(cast, h[t].dtype, op.result(FloatInputs(cast, h, args), i, j))
    {
      assert LastWrite(args, writes, i, j, t);
    }
  }

  ghost function FinalValue(cast: Cast, op: Operator, h: Heap, args: seq<Arg>, writes: seq<bool>, t: nat): Value
    requires t in h
  {
    if exists k: nat, l: nat :: LastWrite(args, writes, k, l, t) then
      var k: nat, l: nat :| LastWrite(args, writes, k, l, t);
      Stored(cast, h[t].dtype, op.result(FloatInputs(cast, h, args), k, l))
    else h[t]
  }

  /** What a written argument of the given type holds in the end. */
  function Stored(cast: Cast, d: Dtype, v: Value): Value { if d.Half? then Convert(cast, v, Half) else v }

  /** The facts about the caller's arguments. */
  lemma RetryFacts(cast: Cast, op: Operator, h: Heap, h1: Heap, h2: Heap, h3: Heap, args: seq<Arg>, args': seq<Arg>, copies: seq<Copy>, writes: seq<bool>)
    requires Converted(cast, h, h1, args, args', copies) && Ordered(args, copies) && Restored(cast, h2, h3, args, writes, copies)
    requires OperatorRan(h1, h2, args', writes, op.ResultOn(FloatInputs(cast, h, args)))
    ensures WrittenBack(cast, op, h, h3, args, writes)
  {
    var result := op.ResultOn(FloatInputs(cast, h, args));
    forall i: nat, j: nat, t: nat | t in h && h[t].dtype.Half? && LastWrite(args, writes, i, j, t)
      ensures t in h3 && h3[t] == Convert(cast, result(i, j), Half)
    {
      WrittenHalfIsRounded(cast, h, h1, h2, h3, args, args', copies, writes, result, i, j, t);
    }
    forall t | t in h
      ensures !Written(args, writes, t) ==> t in h3 && h3[t] == h[t]
      ensures forall i: nat, j: nat :: WrittenAt(args, writes, i, j, t) && !h[t].dtype.Half? ==> t in h3 && h3[t] == result(i, j)
    {
      OthersAreDirect(cast, h, h1, h2, h3, args, args', copies, writes, result, t);
    }
  }

  predicate WrittenAt(args: seq<Arg>, writes: seq<bool>, i: nat, j: nat, t: nat) {
    i < |writes| && writes[i] && Slot(args, i, j) == Some(t)
  }

  /** The operator's contract: it stores its result for slot (i, j) in the tensor there if the
      argument is written, and changes no other tensor. */
  ghost predicate OperatorRan(h: Heap, h': Heap, args: seq<Arg>, writes: seq<bool>, result: (nat, nat) -> Value) {
    && (forall t :: t in h ==> t in h' && (Written(args, writes, t) || h'[t] == h[t]))
    && (forall i: nat, j: nat, t: nat :: WrittenAt(args, writes, i, j, t) ==> t in h' && h'[t] == result(i, j))
  }

  ghost predicate Written(args: seq<Arg>, writes: seq<bool>, t: nat) { exists i: nat, j: nat :: WrittenAt(args, writes, i, j, t) }

  /** Conversion leaves the original tensors where they were and brings in only new ones. */
  lemma OldTensorsStay(cast: Cast, h: Heap, h1: Heap, args: seq<Arg>, args': seq<Arg>, copies: seq<Copy>, writes: seq<bool>, i: nat, j: nat, t: nat)
    requires Converted(cast, h, h1, args, args', copies) && t in h
    ensures WrittenAt(args', writes, i, j, t) ==> WrittenAt(args, writes, i, j, t) && !h[t].dtype.Half?
  {
    assert SlotConverted(cast, h, h1, Slot(args, i, j), Slot(args', i, j), i, j, copies);
  }

  /** A tensor that is not a written half argument is not touched by the write-back. */
  lemma NotATarget(cast: Cast, h: Heap, h1: Heap, h2: Heap, h3: Heap, args: seq<Arg>, args': seq<Arg>, copies: seq<Copy>, writes: seq<bool>, t: nat)
    requires Converted(cast, h, h1, args, args', copies) && Restored(cast, h2, h3, args, writes, copies)
    requires t in h && t in h2 && (!h[t].dtype.Half? || !Written(args, writes, t))
    ensures h3[t] == h2[t]
  {
    forall c | c in copies ensures !Target(args, writes, c, t) {
      assert FromSlot(h, args, args', c);
      assert Target(args, writes, c, t) ==> WrittenAt(args, writes, c.i, c.j, t);
    }
  }

  /** After the retry a written half argument holds the rounding of the operator's float result,
      with its shape, for the last slot it is written through. */
  lemma WrittenHalfIsRounded(cast: Cast, h: Heap, h1: Heap, h2: Heap, h3: Heap, args: seq<Arg>, args': seq<Arg>, copies: seq<Copy>,
                             writes: seq<bool>, result: (nat, nat) -> Value, i: nat, j: nat, t: nat)
    requires Converted(cast, h, h1, args, args', copies) && Ordered(args, copies) && OperatorRan(h1, h2, args', writes, result)
    requires Restored(cast, h2, h3, args, writes, copies)
    requires LastWrite(args, writes, i, j, t) && t in h && h[t].dtype.Half?
    ensures t in h3 && h3[t] == Convert(cast, result(i, j), Half)
  {
    assert SlotConverted(cast, h, h1, Slot(args, i, j), Slot(args', i, j), i, j, copies);
    var c := Copy(i, j, Slot(args', i, j).value);
    assert WrittenAt(args', writes, i, j, c.id);
    var x :| 0 <= x < |copies| && copies[x] == c;
    LastCopy(args, writes, copies, x, t);
  }

  /** The copy of the last written slot is written back last. */
  lemma LastCopy(args: seq<Arg>, writes: seq<bool>, copies: seq<Copy>, x: nat, t: nat)
    requires Ordered(args, copies) && x < |copies| && LastWrite(args, writes, copies[x].i, copies[x].j, t)
    ensures LastFor(args, writes, copies, x, t)
  {
    forall y | x < y < |copies| ensures !Target(args, writes, copies[y], t) {
      assert Precedes(args, copies[x].i, copies[x].j, copies[y].i, copies[y].j);
      assert Target(args, writes, copies[y], t) ==> WrittenAt(args, writes, copies[y].i, copies[y].j, t);
    }
  }

  /** Other written arguments hold the operator's result, and every tensor that is not written is
      unchanged. */
  lemma OthersAreDirect(cast: Cast, h: Heap, h1: Heap, h2: Heap, h3: Heap, args: seq<Arg>, args': seq<Arg>, copies: seq<Copy>,
                        writes: seq<bool>, result: (nat, nat) -> Value, t: nat)
    requires Converted(cast, h, h1, args, args', copies) && OperatorRan(h1, h2, args', writes, result)
    requires Restored(cast, h2, h3, args, writes, copies) && t in h
    ensures !Written(args, writes, t) ==> t in h3 && h3[t] == h[t]
    ensures forall i: nat, j: nat :: WrittenAt(args, writes, i, j, t) && !h[t].dtype.Half? ==> t in h3 && h3[t] == result(i, j)
  {
    if !h[t].dtype.Half? || !Written(args, writes, t) {
      NotATarget(cast, h, h1, h2, h3, args, args', copies, writes, t);
    }
    if !Written(args, writes, t) {
      if Written(args', writes, t) {
        var i, j :| WrittenAt(args', writes, i, j, t);
        OldTensorsStay(cast, h, h1, args, args', copies, writes, i, j, t);
      }
    }
    forall i: nat, j: nat | WrittenAt(args, writes, i, j, t) && !h[t].dtype.Half? ensures t in h3 && h3[t] == result(i, j) {
      assert SlotConverted(cast, h, h1, Slot(args, i, j), Slot(args', i, j), i, j, copies);
      assert WrittenAt(args', writes, i, j, t);
    }
  }

  /** The operator sees the float value of every half argument and the other arguments themselves. */
  lemma OperatorSeesFloats(cast: Cast, h: Heap, h1: Heap, args: seq<Arg>, args': seq<Arg>, copies: seq<Copy>, i: nat, j: nat)
    requires Converted(cast, h, h1, args, args', copies) && Known(h, args)
    ensures Slot(args', i, j).Some? == Slot(args, i, j).Some?
    ensures Slot(args, i, j).Some? ==>
      var v := h[Slot(args, i, j).value];
      Slot(args', i, j).value in h1 && h1[Slot(args', i, j).value] == if v.dtype.Half? then Convert(cast, v, Float) else v
  {
    assert SlotConverted(cast, h, h1, Slot(args, i, j), Slot(args', i, j), i, j, copies);
  }
}
