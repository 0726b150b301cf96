/** Shape inference of matmul and linear: every route (dot, mv, mm, fold, transposed fold, bmm and
    the squeeze recursion) is compared with the mathematical result shape, and the fold test with
    what it promises about addresses. */
module MatmulShapes {
  import opened Options
  import opened Shapes

  /** What shape inference reads of a tensor. */
  datatype RawTensor = RawTensor(sizes: seq<nat>, strides: seq<int>, requiresGrad: bool, subclassLike: bool)

  type Tensor = t: RawTensor | |t.strides| == |t.sizes| witness RawTensor([], [], false, false)

  function Last(s: seq<nat>): nat requires s != [] { s[|s| - 1] }

  function Front(s: seq<nat>): seq<nat> requires s != [] { s[..|s| - 1] }

  // --------------------------------------------------- operations used by the routes

  /** Transposes the last two dimensions. */
  function TransposeSizes<T>(s: seq<T>): (r: seq<T>)
    requires |s| >= 2
    ensures |r| == |s|
  {
    s[..|s| - 2] + [s[|s| - 1], s[|s| - 2]]
  }

  function Transposed(t: Tensor): Tensor
    requires |t.sizes| >= 2
  {
    t.(sizes := TransposeSizes(t.sizes), strides := TransposeSizes(t.strides))
  }

  function Squeezed(t: Tensor): Tensor
    requires t.sizes != []
  {
    t.(sizes := t.sizes[1..], strides := t.strides[1..])
  }

  function Mm(a: seq<nat>, b: seq<nat>): Option<seq<nat>> {
    if |a| == 2 && |b| == 2 && a[1] == b[0] then Some([a[0], b[1]]) else None
  }

  function Mv(a: seq<nat>, b: seq<nat>): Option<seq<nat>> {
    if |a| == 2 && |b| == 1 && a[1] == b[0] then Some([a[0]]) else None
  }

  function Bmm(a: seq<nat>, b: seq<nat>): Option<seq<nat>> {
    if |a| == 3 && |b| == 3 && a[0] == b[0] && a[2] == b[1] then Some([a[0], a[1], b[2]]) else None
  }

  /** view and reshape keep the number of elements. */
  function View(s: Option<seq<nat>>, target: seq<nat>): Option<seq<nat>> {
    if s.Some? && Product(s.value) == Product(target) then Some(target) else None
  }

  function Expand(s: seq<nat>, target: seq<nat>): Option<seq<nat>> {
    if Expandable(s, target) then Some(target) else None
  }

  /** squeeze of one dimension: dropped when its size is 1. */
  function SqueezeAt(s: Option<seq<nat>>, d: nat): Option<seq<nat>> {
    if s.Some? && d < |s.value| && s.value[d] == 1 then Some(s.value[..d] + s.value[d + 1..]) else s
  }

  function MapTranspose(s: Option<seq<nat>>): Option<seq<nat>> {
    if s.Some? && |s.value| >= 2 then Some(TransposeSizes(s.value)) else None
  }

  // ------------------------------------------------------------------- should_fold

  /** Consecutive leading strides telescope: stride[i] == stride[i+1] * size[i+1]. */
  predicate Telescopes(sizes: seq<nat>, strides: seq<int>)
    requires |sizes| == |strides|
  {
    |sizes| >= 2 ==> strides[0] == strides[1] * sizes[1] && Telescopes(sizes[1..], strides[1..])
  }

  /** The scan at the end of should_fold. */
  method ScanStrides(t: Tensor) returns (ok: bool)
    requires |t.sizes| >= 2
    ensures ok == Telescopes(Front(t.sizes), t.strides[..|t.sizes| - 1])
  {
    var d := |t.sizes|;
    ghost var s, st := Front(t.sizes), t.strides[..d - 1];
    assert s[0..] == s && st[0..] == st;
    for i := 0 to d - 2
      invariant Telescopes(s, st) == Telescopes(s[i..], st[i..])
    {
      assert s[i..][1..] == s[i + 1..] && st[i..][1..] == st[i + 1..];
      if t.strides[i] != t.strides[i + 1] * t.sizes[i + 1] {
        return false;
      }
    }
    return true;
  }

  predicate ShouldFold(t1: Tensor, t2: Tensor) {
    var larger := |t1.sizes| >= |t2.sizes|;
    var big := if larger || |t2.sizes| < 2 then t1 else Transposed(t2);
    var smallRank := if larger then |t2.sizes| else |t1.sizes|;
    var smallRequiresGrad := if larger then t2.requiresGrad else t1.requiresGrad;
    if !(|big.sizes| >= 3 && smallRank <= 2) then false
    else if smallRequiresGrad then true
    else if |t1.sizes| == 2 then false
    else if Product(big.sizes) == 0 then true
    else Telescopes(Front(big.sizes), big.strides[..|big.sizes| - 1])
  }

  // ------------------------------------------------------------------ the routes

  function FoldRoute(t1: Tensor, t2: Tensor): Option<seq<nat>>
    requires |t1.sizes| >= 1 && |t2.sizes| >= 1 && ShouldFold(t1, t2)
  {
    var transpose := |t2.sizes| > |t1.sizes|;
    var big := if transpose then TransposeSizes(t2.sizes) else t1.sizes;
    var small := if !transpose then t2.sizes else if |t1.sizes| == 2 then TransposeSizes(t1.sizes) else t1.sizes;
    var outer := Front(big);
    var rows := Product(outer);
    var folded := View(Some(big), [rows, Last(big)]);
    if folded.None? then None
    else if |small| == 2 then
      var out := View(Mm(folded.value, small), outer + [small[1]]);
      if transpose then MapTranspose(out) else out
    else View(Mv(folded.value, small), outer)
  }

  function Batch(s: seq<nat>): seq<nat> { if |s| > 2 then s[..|s| - 2] else [] }

  function Rows(s: seq<nat>): nat requires s != [] { if |s| > 1 then s[|s| - 2] else 1 }

  function Inner(s: seq<nat>): nat requires s != [] { if |s| > 1 then s[|s| - 2] else s[0] }

  function Cols(s: seq<nat>): nat requires s != [] { if |s| > 1 then Last(s) else 1 }

  /** The trailing part of the result: rows unless the left operand is a vector, columns unless
      the right one is. */
  function Trailing(a: seq<nat>, b: seq<nat>): seq<nat>
    requires a != [] && b != []
  {
    (if |a| > 1 then [Rows(a)] else []) + (if |b| > 1 then [Cols(b)] else [])
  }

  function BmmRoute(a: seq<nat>, b: seq<nat>): Option<seq<nat>>
    requires a != [] && b != []
  {
    var n, m1, m2, p := Rows(a), Last(a), Inner(b), Cols(b);
    match InferSize(Batch(a), Batch(b))
    case None => None
    case Some(batch) =>
      var count := Product(batch);
      var vectorRhs := |b| == 1;
      var left := View(Expand(a, batch + [n, m1]), [count, n, m1]);
      var right :=
        if vectorRhs then
          var flat := View(Expand(b, batch + [m2]), [count, m2]);
          if flat.Some? then Some(flat.value + [1]) else None
        else View(Expand(b, batch + [m2, p]), [count, m2, p]);
      if left.None? || right.None? then None
      else
        var product := Bmm(left.value, right.value);
        View(if vectorRhs then SqueezeAt(product, 2) else product, batch + Trailing(a, b))
  }

  function MatmulInfer(t1: Tensor, t2: Tensor): (r: Option<seq<nat>>)
    decreases |t1.sizes| + |t2.sizes|
  {
    var a, b := t1.sizes, t2.sizes;
    if a == [] || b == [] then None
    else if |a| == 1 && |b| == 1 then Some([])
    else if |a| == 2 && |b| == 1 then Mv(a, b)
    else if |a| == 1 && |b| == 2 then SqueezeAt(Mm([1] + a, b), 0)
    else if |a| == 2 && |b| == 2 then Mm(a, b)
    else if ShouldFold(t1, t2) then FoldRoute(t1, t2)
    else if |a| == 3 && |b| == 3 && a[0] != b[0] && a[0] == 1 && (t1.requiresGrad || t1.subclassLike) then
      MatmulInfer(Squeezed(t1), t2)
    else if |a| == 3 && |b| == 3 && a[0] != b[0] && b[0] == 1 && (t2.requiresGrad || t2.subclassLike) then
      MatmulInfer(t1, Squeezed(t2))
    else BmmRoute(a, b)
  }

  // -------------------------------------------------------------- what it must be

  /** The shape of a matrix product: inner sizes agree, batch dimensions broadcast. */
  function ProductShape(a: seq<nat>, b: seq<nat>): (r: Option<seq<nat>>) {
    if a == [] || b == [] || Last(a) != Inner(b) then None
    else
      match InferSize(Batch(a), Batch(b))
      case None => None
      case Some(batch) => Some(batch + Trailing(a, b))
  }

  // ------------------------------------------------------------------ the proofs

  lemma ProductSmall(x: nat, y: nat, z: nat)
    ensures Product([x]) == x && Product([x, y]) == x * y && Product([x, y, z]) == x * (y * z)
  {
    assert [x][1..] == [] && [x, y][1..] == [y] && [y][1..] == [] && [x, y, z][1..] == [y, z] && [y, z][1..] == [z] && [z][1..] == [];
    assert Product([z]) == z * 1 && Product([y]) == y * 1 && Product([x]) == x * 1;
  }

  lemma FoldedView(big: seq<nat>)
    requires big != []
    ensures View(Some(big), [Product(Front(big)), Last(big)]) == Some([Product(Front(big)), Last(big)])
  {
    assert big == Front(big) + [Last(big)];
    ProductAppend(Front(big), [Last(big)]);
    ProductSmall(Last(big), 0, 0);
    ProductSmall(Product(Front(big)), Last(big), 0);
  }

  lemma UnfoldedView(outer: seq<nat>, p: nat)
    ensures View(Some([Product(outer), p]), outer + [p]) == Some(outer + [p])
    ensures View(Some([Product(outer)]), outer) == Some(outer)
  {
    ProductAppend(outer, [p]);
    ProductSmall(p, 0, 0);
    ProductSmall(Product(outer), p, 0);
  }

  lemma InferWithNothing(s: seq<nat>)
    ensures InferSize(s, []) == Some(s) && InferSize([], s) == Some(s)
  {
  }

  lemma FoldAgrees(t1: Tensor, t2: Tensor)
    requires |t1.sizes| >= 1 && |t2.sizes| >= 1 && ShouldFold(t1, t2)
    ensures FoldRoute(t1, t2) == ProductShape(t1.sizes, t2.sizes)
  {
    if |t2.sizes| > |t1.sizes| {
      TransposedFoldAgrees(t1, t2);
    } else {
      DirectFoldAgrees(t1, t2);
    }
  }

  lemma DirectFoldAgrees(t1: Tensor, t2: Tensor)
    requires |t1.sizes| >= |t2.sizes| >= 1 && ShouldFold(t1, t2)
    ensures FoldRoute(t1, t2) == ProductShape(t1.sizes, t2.sizes)
  {
    var a, b := t1.sizes, t2.sizes;
    FoldedView(a);
    InferWithNothing(Batch(a));
    UnfoldedView(Front(a), Cols(b));
    assert Front(a) == Batch(a) + [Rows(a)];
    assert Batch(a) + Trailing(a, b) == if |b| == 2 then Front(a) + [b[1]] else Front(a);
  }

  lemma TransposedFoldAgrees(t1: Tensor, t2: Tensor)
    requires |t2.sizes| > |t1.sizes| >= 1 && ShouldFold(t1, t2)
    ensures FoldRoute(t1, t2) == ProductShape(t1.sizes, t2.sizes)
  {
    var a, b := t1.sizes, t2.sizes;
    var big := TransposeSizes(b);
    var outer := Front(big);
    FoldedView(big);
    InferWithNothing(Batch(b));
    UnfoldedView(outer, Rows(a));
    assert outer == Batch(b) + [Cols(b)] && Last(big) == Inner(b);
    if |a| == 2 {
      assert TransposeSizes(outer + [a[0]]) == Batch(b) + [a[0], Cols(b)];
      assert Batch(b) + Trailing(a, b) == Batch(b) + [a[0], Cols(b)];
    } else {
      assert Batch(b) + Trailing(a, b) == outer;
    }
  }

  lemma ExpandableSuffix(x: seq<nat>, y: seq<nat>, z: seq<nat>)
    requires Expandable(x, y)
    ensures Expandable(x + z, y + z)
  {
    var t := y[|y| - |x|..];
    assert (y + z)[|y + z| - |x + z|..] == t + z;
    FitsAppend(x, t, z);
  }

  lemma {:induction false} FitsAppend(x: seq<nat>, t: seq<nat>, z: seq<nat>)
    requires Fits(x, t)
    ensures Fits(x + z, t + z)
  {
    if x == [] {
      assert x + z == z && t + z == z;
      FitsByIndex(z, z);
    } else {
      FitsAppend(x[1..], t[1..], z);
      assert (x + z)[1..] == x[1..] + z && (t + z)[1..] == t[1..] + z;
    }
  }

  lemma NothingExpands(y: seq<nat>)
    ensures Expandable([], y)
  {
    assert y[|y|..] == [];
  }

  /** The left operand, expanded over the batch and flattened. */
  lemma LeftOperand(a: seq<nat>, batch: seq<nat>)
    requires a != [] && Expandable(Batch(a), batch)
    ensures View(Expand(a, batch + [Rows(a), Last(a)]), [Product(batch), Rows(a), Last(a)]) == Some([Product(batch), Rows(a), Last(a)])
  {
    var n, m := Rows(a), Last(a);
    if |a| > 1 {
      assert a == Batch(a) + [n, m];
      ExpandableSuffix(Batch(a), batch, [n, m]);
    } else {
      NothingExpands(batch + [n]);
      ExpandableSuffix([], batch + [n], a);
      assert [] + a == a && batch + [n] + a == batch + [n, m];
    }
    ProductAppend(batch, [n, m]);
    ProductSmall(n, m, 0);
    ProductSmall(Product(batch), n, m);
  }

  /** The right operand, expanded over the batch and flattened. */
  lemma RightOperand(b: seq<nat>, batch: seq<nat>)
    requires b != [] && Expandable(Batch(b), batch)
    ensures |b| > 1 ==> View(Expand(b, batch + [Inner(b), Cols(b)]), [Product(batch), Inner(b), Cols(b)]) == Some([Product(batch), Inner(b), Cols(b)])
    ensures |b| == 1 ==> View(Expand(b, batch + [Inner(b)]), [Product(batch), Inner(b)]) == Some([Product(batch), Inner(b)])
  {
    var m, p := Inner(b), Cols(b);
    if |b| > 1 {
      assert b == Batch(b) + [m, p];
      ExpandableSuffix(Batch(b), batch, [m, p]);
      ProductAppend(batch, [m, p]);
      ProductSmall(m, p, 0);
      ProductSmall(Product(batch), m, p);
    } else {
      NothingExpands(batch);
      ExpandableSuffix([], batch, b);
      assert [] + b == b && b == [m];
      ProductAppend(batch, [m]);
      ProductSmall(m, 0, 0);
      ProductSmall(Product(batch), m, 0);
    }
  }

  lemma TrailingProduct(a: seq<nat>, b: seq<nat>, batch: seq<nat>)
    requires a != [] && b != []
    ensures Product([Product(batch), Rows(a), Cols(b)]) == Product(batch + Trailing(a, b))
    ensures |b| == 1 ==> Product([Product(batch), Rows(a)]) == Product(batch + Trailing(a, b))
  {
    var n, p := Rows(a), Cols(b);
    ProductAppend(batch, Trailing(a, b));
    ProductSmall(Product(batch), n, p);
    ProductSmall(n, p, 0);
    ProductSmall(p, 0, 0);
    assert Trailing(a, b) == if |a| > 1 && |b| > 1 then [n, p] else if |a| > 1 then [n] else if |b| > 1 then [p] else [];
    assert Product([]) == 1;
  }

  lemma BmmAgrees(a: seq<nat>, b: seq<nat>)
    requires a != [] && b != []
    ensures BmmRoute(a, b) == ProductShape(a, b)
  {
    var inferred := InferSize(Batch(a), Batch(b));
    if inferred.Some? {
      if |b| == 1 {
        BmmVector(a, b, inferred.value);
      } else {
        BmmMatrix(a, b, inferred.value);
      }
    }
  }

  lemma BmmVector(a: seq<nat>, b: seq<nat>, batch: seq<nat>)
    requires a != [] && |b| == 1 && InferSize(Batch(a), Batch(b)) == Some(batch)
    ensures BmmRoute(a, b) == ProductShape(a, b)
  {
    var n, m1, m2, count := Rows(a), Last(a), Inner(b), Product(batch);
    InferSizeExpands(Batch(a), Batch(b));
    LeftOperand(a, batch);
    RightOperand(b, batch);
    TrailingProduct(a, b, batch);
    assert [count, m2] + [1] == [count, m2, 1];
    assert Bmm([count, n, m1], [count, m2, 1]) == if m1 == m2 then Some([count, n, 1]) else None;
    assert [count, n, 1][..2] + [count, n, 1][3..] == [count, n];
  }

  lemma BmmMatrix(a: seq<nat>, b: seq<nat>, batch: seq<nat>)
    requires a != [] && |b| > 1 && InferSize(Batch(a), Batch(b)) == Some(batch)
    ensures BmmRoute(a, b) == ProductShape(a, b)
  {
    InferSizeExpands(Batch(a), Batch(b));
    LeftOperand(a, batch);
    RightOperand(b, batch);
    TrailingProduct(a, b, batch);
  }

  lemma InferOne(x: nat)
    ensures InferSize([1], [x]) == Some([x]) && InferSize([x], [1]) == Some([x])
  {
    assert [1][..0] == [] && [x][..0] == [] && [] + [x] == [x];
    assert InferSize([], []) == Some([]);
  }

  lemma SqueezedBatch(a: seq<nat>, b: seq<nat>)
    requires |a| == 3 && |b| == 3 && a[0] == 1
    ensures ProductShape(a[1..], b) == ProductShape(a, b) && ProductShape(b, a[1..]) == ProductShape(b, a)
  {
    assert Batch(a) == [1] && Batch(a[1..]) == [] && Batch(b) == [b[0]];
    InferOne(b[0]);
    InferWithNothing([b[0]]);
    assert Trailing(a[1..], b) == Trailing(a, b) && Trailing(b, a[1..]) == Trailing(b, a);
  }

  /** Every route gives the product shape, and fails exactly when the product is undefined; only
      two vectors are accepted whatever their lengths. */
  lemma {:induction false} MatmulAgrees(t1: Tensor, t2: Tensor)
    ensures MatmulInfer(t1, t2) ==
      if |t1.sizes| == 1 && |t2.sizes| == 1 then Some([]) else ProductShape(t1.sizes, t2.sizes)
    decreases |t1.sizes| + |t2.sizes|
  {
    var a, b := t1.sizes, t2.sizes;
    if a != [] && b != [] {
      if |a| == 1 && |b| == 1 {
      } else if |a| <= 2 && |b| <= 2 {
        SmallRoutes(t1, t2);
      } else if ShouldFold(t1, t2) {
        FoldAgrees(t1, t2);
      } else {
        BmmAgrees(a, b);
        if |a| == 3 && |b| == 3 && a[0] == 1 {
          MatmulAgrees(Squeezed(t1), t2);
          SqueezedBatch(a, b);
        }
        if |a| == 3 && |b| == 3 && b[0] == 1 {
          MatmulAgrees(t1, Squeezed(t2));
          SqueezedBatch(b, a);
        }
      }
    }
  }

  lemma SmallRoutes(t1: Tensor, t2: Tensor)
    requires 1 <= |t1.sizes| <= 2 && 1 <= |t2.sizes| <= 2 && |t1.sizes| + |t2.sizes| > 2
    ensures MatmulInfer(t1, t2) == ProductShape(t1.sizes, t2.sizes)
  {
    var a, b := t1.sizes, t2.sizes;
    assert Batch(a) == [] && Batch(b) == [] && InferSize([], []) == Some([]);
    if |a| == 1 {
      assert [1] + a == [1, a[0]];
      assert [1, b[1]][..0] + [1, b[1]][1..] == [b[1]];
      assert [] + Trailing(a, b) == [b[1]];
    } else if |b| == 1 {
      assert [] + Trailing(a, b) == [a[0]];
    } else {
      assert [] + Trailing(a, b) == [a[0], b[1]];
    }
  }

  // -------------------------------------------------------------- folded addresses

  /** Telescoping strides are the last stride times a row-major weight. */
  lemma {:induction false} FirstStride(sizes: seq<nat>, strides: seq<int>)
    requires |sizes| == |strides| >= 1 && Telescopes(sizes, strides)
    ensures strides[0] == strides[|strides| - 1] * Product(sizes[1..])
  {
    if |sizes| == 1 {
      assert sizes[1..] == [];
    } else {
      FirstStride(sizes[1..], strides[1..]);
      var last := strides[|strides| - 1];
      assert strides[1..][|strides| - 2] == last && sizes[1..][1..] == sizes[2..];
      Regroup(last, Product(sizes[2..]), sizes[1]);
    }
  }

  lemma Regroup(x: int, y: int, z: int)
    ensures (x * y) * z == x * (z * y)
  {
  }

  lemma Collect(last: int, p: int, c: int, r: int)
    ensures (last * p) * c + last * r == last * (c * p + r)
  {
  }

  /** The leading dimensions address one row index with the last of their strides. */
  lemma {:induction false} LeadingOffset(sizes: seq<nat>, strides: seq<int>, c: seq<nat>)
    requires |sizes| == |strides| == |c| >= 1 && Telescopes(sizes, strides)
    ensures Dot(strides, c) == strides[|strides| - 1] * Ravel(sizes, c)
  {
    var last := strides[|strides| - 1];
    FirstStride(sizes, strides);
    if |sizes| == 1 {
      assert Dot(strides[1..], c[1..]) == 0 && Ravel(sizes[1..], c[1..]) == 0;
    } else {
      LeadingOffset(sizes[1..], strides[1..], c[1..]);
      assert strides[1..][|strides| - 2] == last;
    }
    Collect(last, Product(sizes[1..]), c[0], Ravel(sizes[1..], c[1..]));
    assert Dot(strides[1..], c[1..]) == last * Ravel(sizes[1..], c[1..]);
  }

  /** The tensor that folding flattens: the larger operand, transposed if it is the right one. */
  function Folded(t1: Tensor, t2: Tensor): Tensor {
    if |t1.sizes| >= |t2.sizes| || |t2.sizes| < 2 then t1 else Transposed(t2)
  }

  /** One row stride reaches, at row `Ravel(batch)` and column c[d-1], the element at c. */
  predicate SameElement(t: Tensor, c: seq<nat>)
    requires |t.sizes| == |c| >= 2
  {
    var d := |c|;
    Dot(t.strides, c) == t.strides[d - 2] * Ravel(Front(t.sizes), c[..d - 1]) + t.strides[d - 1] * c[d - 1]
  }

  lemma TelescopingAddress(t: Tensor, c: seq<nat>)
    requires |t.sizes| == |c| >= 2 && Telescopes(Front(t.sizes), t.strides[..|c| - 1])
    ensures SameElement(t, c)
  {
    var d := |c|;
    var st, front, s, x := t.strides[..d - 1], c[..d - 1], t.strides[d - 1], c[d - 1];
    LeadingOffset(Front(t.sizes), st, front);
    assert t.strides == st + [s] && c == front + [x];
    DotAppend(st, front, [s], [x]);
    assert Dot([s], [x]) == s * x + Dot([], []) by {
      assert [s][1..] == [] && [x][1..] == [];
    }
  }

  /** Row numbers and batch coordinates correspond one to one. */
  lemma RowBijection(sizes: seq<nat>, c: seq<nat>, row: nat)
    requires sizes != [] && InBounds(sizes, c) && row < Product(Front(sizes))
    ensures |c| == |sizes| && Ravel(Front(sizes), c[..|c| - 1]) < Product(Front(sizes))
    ensures Unravel(Front(sizes), Ravel(Front(sizes), c[..|c| - 1])) == c[..|c| - 1]
    ensures InBounds(Front(sizes), Unravel(Front(sizes), row)) && Ravel(Front(sizes), Unravel(Front(sizes), row)) == row
  {
    RavelBound(sizes, c);
    InBoundsDrop(sizes, c, |c| - 1);
    RavelBound(Front(sizes), c[..|c| - 1]);
    UnravelRavel(Front(sizes), c[..|c| - 1]);
    RavelUnravel(Front(sizes), row);
  }

  lemma FoldTelescopes(t1: Tensor, t2: Tensor)
    requires ShouldFold(t1, t2) && Product(Folded(t1, t2).sizes) != 0
    requires !(if |t1.sizes| >= |t2.sizes| then t2.requiresGrad else t1.requiresGrad)
    ensures var t := Folded(t1, t2); |t.sizes| >= 3 && Telescopes(Front(t.sizes), t.strides[..|t.sizes| - 1])
  {
  }

  /** A fold decided by the strides alone copies nothing: the two-dimensional view with row stride
      stride[d-2] reads, at row `Ravel(batch)` and column c[d-1], the element at coordinate c; and
      rows and batch coordinates correspond one to one, so the output view restores them. */
  lemma FoldAddressesSameElements(t1: Tensor, t2: Tensor, c: seq<nat>, row: nat)
    requires ShouldFold(t1, t2)
    requires !(if |t1.sizes| >= |t2.sizes| then t2.requiresGrad else t1.requiresGrad)
    requires InBounds(Folded(t1, t2).sizes, c) && row < Product(Front(Folded(t1, t2).sizes))
    ensures var t := Folded(t1, t2);
      var batch := Front(t.sizes);
      var front := c[..|t.sizes| - 1];
      && |t.sizes| == |c| >= 3 && SameElement(t, c)
      && Ravel(batch, front) < Product(batch) && Unravel(batch, Ravel(batch, front)) == front
      && InBounds(batch, Unravel(batch, row)) && Ravel(batch, Unravel(batch, row)) == row
  {
    var t := Folded(t1, t2);
    RavelBound(t.sizes, c);
    FoldTelescopes(t1, t2);
    RowBijection(t.sizes, c, row);
    TelescopingAddress(t, c);
  }

  /** The coordinate that is 1 at position k and 0 elsewhere. */
  function Unit(n: nat, k: nat): (c: seq<nat>)
    ensures |c| == n
  {
    if n == 0 then [] else if k == 0 then [1] + Fill(0, n - 1) else [0] + Unit(n - 1, k - 1)
  }

  lemma {:induction false} ZeroFacts(sizes: seq<nat>, strides: seq<int>)
    requires |sizes| == |strides|
    ensures Dot(strides, Fill(0, |sizes|)) == 0 && Ravel(sizes, Fill(0, |sizes|)) == 0
    ensures (forall k :: 0 <= k < |sizes| ==> sizes[k] >= 2) ==> InBounds(sizes, Fill(0, |sizes|))
  {
    if sizes != [] {
      ZeroFacts(sizes[1..], strides[1..]);
    }
  }

  lemma {:induction false} UnitFacts(sizes: seq<nat>, strides: seq<int>, k: nat)
    requires |sizes| == |strides| && k < |sizes| && forall j :: 0 <= j < |sizes| ==> sizes[j] >= 2
    ensures InBounds(sizes, Unit(|sizes|, k)) && Dot(strides, Unit(|sizes|, k)) == strides[k]
    ensures Ravel(sizes, Unit(|sizes|, k)) == Product(sizes[k + 1..])
  {
    if k == 0 {
      ZeroFacts(sizes[1..], strides[1..]);
      assert Unit(|sizes|, k)[1..] == Fill(0, |sizes| - 1);
    } else {
      UnitFacts(sizes[1..], strides[1..], k - 1);
      assert Unit(|sizes|, k)[1..] == Unit(|sizes| - 1, k - 1) && sizes[1..][k..] == sizes[k + 1..];
    }
  }

  /** The stride test is also necessary: if every leading size is at least 2 and one row stride
      addresses every coordinate, the strides telescope. */
  lemma {:induction false} RowStrideImpliesTelescoping(sizes: seq<nat>, strides: seq<int>, last: int)
    requires |sizes| == |strides| >= 1 && forall j :: 0 <= j < |sizes| ==> sizes[j] >= 2
    requires forall c: seq<nat> :: InBounds(sizes, c) ==> Dot(strides, c) == last * Ravel(sizes, c)
    ensures Telescopes(sizes, strides)
  {
    if |sizes| >= 2 {
      UnitFacts(sizes, strides, 0);
      UnitFacts(sizes, strides, 1);
      assert sizes[1..][1..] == sizes[2..];
      Regroup(last, Product(sizes[2..]), sizes[1]);
      forall c: seq<nat> | InBounds(sizes[1..], c) ensures Dot(strides[1..], c) == last * Ravel(sizes[1..], c) {
        var c' := [0] + c;
        assert c'[1..] == c && InBounds(sizes, c');
      }
      RowStrideImpliesTelescoping(sizes[1..], strides[1..], last);
    }
  }

  // ------------------------------------------------------------------------ linear

  function Addmm(bias: seq<nat>, a: seq<nat>, b: seq<nat>): Option<seq<nat>> {
    var product := Mm(a, b);
    if product.Some? && Expandable(bias, product.value) then product else None
  }

  /** Row-major contiguity, size-1 dimensions excepted. */
  predicate ContiguousFrom(sizes: seq<nat>, strides: seq<int>, expected: nat)
    requires |sizes| == |strides|
  {
    if sizes == [] then true
    else
      var d := |sizes| - 1;
      if sizes[d] == 1 then ContiguousFrom(sizes[..d], strides[..d], expected)
      else strides[d] == expected && ContiguousFrom(sizes[..d], strides[..d], expected * sizes[d])
  }

  predicate IsContiguous(t: Tensor) {
    Product(t.sizes) == 0 || ContiguousFrom(t.sizes, t.strides, 1)
  }

  /** The loop that multiplies the leading sizes. */
  method FlattenedDim(sizes: seq<nat>) returns (r: nat)
    requires sizes != []
    ensures r == Product(Front(sizes))
  {
    r := 1;
    var s := Front(sizes);
    assert s[0..] == s;
    for i := 0 to |sizes| - 1
      invariant r * Product(s[i..]) == Product(s)
    {
      assert s[i..][1..] == s[i + 1..];
      MulAssociative(r, sizes[i], Product(s[i + 1..]));
      r := r * sizes[i];
    }
    assert s[|s|..] == [];
  }

  function FlattenNdLinear(input: seq<nat>, weight: seq<nat>, bias: seq<nat>): Option<seq<nat>> {
    if input == [] || |weight| != 2 then None
    else
      var flat := View(Some(input), [Product(Front(input)), Last(input)]);
      if flat.None? then None
      else
        var result := Addmm(bias, flat.value, TransposeSizes(weight));
        if result.None? || |result.value| != 2 then None else View(result, Front(input) + [result.value[1]])
  }

  function LinearInfer(input: Tensor, weight: Tensor, bias: Option<seq<nat>>, flatten3d: bool, strided: bool, outOfPlace: bool): Option<seq<nat>>
    requires |weight.sizes| == 2
  {
    var rank := |input.sizes|;
    if rank == 2 && bias.Some? then Addmm(bias.value, input.sizes, TransposeSizes(weight.sizes))
    else if bias.Some? && IsContiguous(input) && rank == 3 then FlattenNdLinear(input.sizes, weight.sizes, bias.value)
    else if bias.Some? && IsContiguous(input) && strided && |bias.value| == 1 then
      FlattenNdLinear(input.sizes, weight.sizes, bias.value)
    else if bias.Some? && flatten3d && rank == 3 then FlattenNdLinear(input.sizes, weight.sizes, bias.value)
    else
      var output := MatmulInfer(input, Transposed(weight));
      if output.None? || bias.None? then output
      else
        match InferSize(output.value, bias.value)
        case None => None
        case Some(sum) => if outOfPlace || sum == output.value then Some(sum) else None
  }

  /** Every route of linear gives input[..-1] ++ [out], and fails exactly when the input has no
      last dimension of the weight's inner size. */
  lemma LinearAgrees(input: Tensor, weight: Tensor, bias: Option<seq<nat>>, flatten3d: bool, strided: bool, outOfPlace: bool)
    requires |weight.sizes| == 2 && (bias.Some? ==> bias.value == [weight.sizes[0]])
    ensures LinearInfer(input, weight, bias, flatten3d, strided, outOfPlace) ==
      if input.sizes != [] && Last(input.sizes) == weight.sizes[1] then Some(Front(input.sizes) + [weight.sizes[0]]) else None
  {
    if input.sizes == [] {
      assert MatmulInfer(input, Transposed(weight)).None?;
    } else {
      LinearRoutes(input, weight);
    }
  }

  /** What each route gives on an input with at least one dimension. */
  lemma LinearRoutes(input: Tensor, weight: Tensor)
    requires |weight.sizes| == 2 && input.sizes != []
    ensures var a, out := input.sizes, weight.sizes[0];
      var r := if Last(a) == weight.sizes[1] then Some(Front(a) + [out]) else None;
      && MatmulInfer(input, Transposed(weight)) == r && FlattenNdLinear(a, weight.sizes, [out]) == r
      && (|a| == 2 ==> Addmm([out], a, TransposeSizes(weight.sizes)) == r)
      && InferSize(Front(a) + [out], [out]) == Some(Front(a) + [out])
  {
    var a, out := input.sizes, weight.sizes[0];
    var w := TransposeSizes(weight.sizes);
    assert w == [weight.sizes[1], out];
    MatmulAgrees(input, Transposed(weight));
    LinearProductShape(a, w);
    LinearBias(Front(a), out);
    FlattenAgrees(a, weight.sizes);
    if |a| == 2 {
      assert Front(a) + [out] == [a[0], out];
    }
  }

  lemma FlattenAgrees(a: seq<nat>, weight: seq<nat>)
    requires a != [] && |weight| == 2
    ensures FlattenNdLinear(a, weight, [weight[0]]) ==
      if Last(a) == weight[1] then Some(Front(a) + [weight[0]]) else None
  {
    var m, out := Product(Front(a)), weight[0];
    FoldedView(a);
    assert TransposeSizes(weight) == [weight[1], out];
    assert Expandable([out], [m, out]) by {
      LinearBias(Front(a), out);
    }
    if Last(a) == weight[1] {
      assert Addmm([out], [m, Last(a)], [weight[1], out]) == Some([m, out]);
      UnfoldedView(Front(a), out);
    }
  }

  lemma LinearProductShape(a: seq<nat>, w: seq<nat>)
    requires a != [] && |w| == 2
    ensures ProductShape(a, w) == if Last(a) == w[0] then Some(Front(a) + [w[1]]) else None
  {
    InferWithNothing(Batch(a));
    assert Batch(a) + Trailing(a, w) == Front(a) + [w[1]];
  }

  /** A bias of the output size expands to, and broadcasts into, any output row. */
  lemma LinearBias(front: seq<nat>, out: nat)
    ensures Expandable([out], front + [out]) && InferSize(front + [out], [out]) == Some(front + [out])
    ensures forall n: nat :: Expandable([out], [n, out])
  {
    NothingExpands(front);
    ExpandableSuffix([], front, [out]);
    assert [] + [out] == [out];
    assert (front + [out])[..|front|] == front && [out][..0] == [];
    InferWithNothing(front);
    forall n: nat ensures Expandable([out], [n, out]) {
      NothingExpands([n]);
      ExpandableSuffix([], [n], [out]);
      assert [n] + [out] == [n, out];
    }
  }
}
