/** Tensor shapes, row-major numbering and broadcasting, shared by the shape-level modules. */
module Shapes {
  import opened Options

  function Product(s: seq<nat>): (p: nat) {
    if s == [] then 1 else s[0] * Product(s[1..])
  }

  predicate InBounds(sizes: seq<nat>, c: seq<nat>) {
    |c| == |sizes| && (sizes == [] || (c[0] < sizes[0] && InBounds(sizes[1..], c[1..])))
  }

  lemma {:induction false} InBoundsAppend(s1: seq<nat>, s2: seq<nat>, c1: seq<nat>, c2: seq<nat>)
    requires |s1| == |c1|
    ensures InBounds(s1 + s2, c1 + c2) <==> InBounds(s1, c1) && InBounds(s2, c2)
  {
    if s1 == [] {
      assert s1 + s2 == s2 && c1 + c2 == c2;
    } else {
      InBoundsAppend(s1[1..], s2, c1[1..], c2);
      assert (s1 + s2)[1..] == s1[1..] + s2 && (c1 + c2)[1..] == c1[1..] + c2;
    }
  }

  /** Row-major position of a coordinate. */
  function Ravel(sizes: seq<nat>, c: seq<nat>): (r: nat)
    requires |c| == |sizes|
  {
    if sizes == [] then 0 else c[0] * Product(sizes[1..]) + Ravel(sizes[1..], c[1..])
  }

  /** The coordinate at a row-major position. */
  function Unravel(sizes: seq<nat>, r: nat): (c: seq<nat>)
    requires r < Product(sizes)
    ensures InBounds(sizes, c)
  {
    if sizes == [] then []
    else
      var inner := Product(sizes[1..]);
      QuotientBound(r, inner, sizes[0]);
      [r / inner] + Unravel(sizes[1..], r % inner)
  }

  lemma QuotientBound(r: nat, inner: nat, n: nat)
    requires r < n * inner
    ensures inner > 0 && r / inner < n && r % inner < inner
  {
    assert inner > 0;
    assert inner * (r / inner) + r % inner == r;
    assert inner * n == n * inner;
    MulCancelLess(inner, r / inner, n);
  }

  lemma MulMonotone(a: nat, x: nat, y: nat)
    requires x <= y
    ensures a * x <= a * y
  {
  }

  lemma MulCancelLess(a: nat, x: nat, y: nat)
    requires a * x < a * y
    ensures x < y
  {
    if y <= x { MulMonotone(a, y, x); }
  }

  lemma RowBound(c: nat, n: nat, inner: nat, r: nat)
    requires c < n && r < inner
    ensures c * inner + r < n * inner
  {
    MulMonotone(inner, c + 1, n);
    assert inner * (c + 1) == inner * c + inner;
    assert inner * n == n * inner && inner * c == c * inner;
  }

  lemma {:induction false} RavelBound(sizes: seq<nat>, c: seq<nat>)
    requires InBounds(sizes, c)
    ensures Ravel(sizes, c) < Product(sizes)
  {
    if sizes != [] {
      RavelBound(sizes[1..], c[1..]);
      RowBound(c[0], sizes[0], Product(sizes[1..]), Ravel(sizes[1..], c[1..]));
    }
  }

  lemma {:induction false} UnravelRavel(sizes: seq<nat>, c: seq<nat>)
    requires InBounds(sizes, c)
    ensures Ravel(sizes, c) < Product(sizes)
    ensures Unravel(sizes, Ravel(sizes, c)) == c
  {
    RavelBound(sizes, c);
    if sizes != [] {
      RavelBound(sizes[1..], c[1..]);
      UnravelRavel(sizes[1..], c[1..]);
      DivModUnique(c[0], Product(sizes[1..]), Ravel(sizes[1..], c[1..]));
    }
  }

  lemma DivModUnique(q: nat, d: nat, m: nat)
    requires m < d
    ensures (q * d + m) / d == q && (q * d + m) % d == m
  {
    var n := q * d + m;
    var q', m' := n / d, n % d;
    assert n == d * q' + m' && n == d * q + m;
    assert d * (q + 1) == d * q + d && d * (q' + 1) == d * q' + d;
    MulCancelLess(d, q', q + 1);
    MulCancelLess(d, q, q' + 1);
  }

  lemma {:induction false} RavelUnravel(sizes: seq<nat>, r: nat)
    requires r < Product(sizes)
    ensures Ravel(sizes, Unravel(sizes, r)) == r
  {
    if sizes != [] {
      var inner := Product(sizes[1..]);
      QuotientBound(r, inner, sizes[0]);
      RavelUnravel(sizes[1..], r % inner);
      assert Unravel(sizes, r)[1..] == Unravel(sizes[1..], r % inner);
      assert r == inner * (r / inner) + r % inner;
      assert (r / inner) * inner == inner * (r / inner);
    }
  }

  lemma {:induction false} ProductAppend(a: seq<nat>, b: seq<nat>)
    ensures Product(a + b) == Product(a) * Product(b)
  {
    if a == [] {
      assert a + b == b;
    } else {
      ProductAppend(a[1..], b);
      assert (a + b)[1..] == a[1..] + b;
      MulAssociative(a[0], Product(a[1..]), Product(b));
    }
  }

  lemma MulAssociative(x: nat, y: nat, z: nat)
    ensures x * (y * z) == (x * y) * z
  {
  }

  /** Offset of a coordinate in a strided view, in elements. */
  function Dot(strides: seq<int>, c: seq<int>): (r: int) {
    if c == [] || strides == [] then 0 else strides[0] * c[0] + Dot(strides[1..], c[1..])
  }

  lemma {:induction false} DotAppend(s1: seq<int>, c1: seq<int>, s2: seq<int>, c2: seq<int>)
    requires |s1| == |c1|
    ensures Dot(s1 + s2, c1 + c2) == Dot(s1, c1) + Dot(s2, c2)
  {
    if c1 == [] {
      assert s1 + s2 == s2 && c1 + c2 == c2;
    } else {
      DotAppend(s1[1..], c1[1..], s2, c2);
      assert (s1 + s2)[1..] == s1[1..] + s2 && (c1 + c2)[1..] == c1[1..] + c2;
    }
  }

  lemma {:induction false} DotScale(k: int, strides: seq<int>, c: seq<int>)
    ensures Dot(Scale(k, strides), c) == k * Dot(strides, c)
  {
    if c != [] && strides != [] {
      DotScale(k, strides[1..], c[1..]);
      assert Scale(k, strides)[1..] == Scale(k, strides[1..]);
      ScaleTerm(k, strides[0], c[0], Dot(strides[1..], c[1..]));
    }
  }

  lemma ScaleTerm(k: int, s: int, x: int, rest: int)
    ensures (k * s) * x + k * rest == k * (s * x + rest)
  {
  }

  function Scale(k: int, xs: seq<int>): (r: seq<int>)
    ensures |r| == |xs|
  {
    if xs == [] then [] else [k * xs[0]] + Scale(k, xs[1..])
  }

  function Repeat<T>(x: T, n: nat): (r: seq<T>)
    ensures |r| == n
  {
    if n == 0 then [] else [x] + Repeat(x, n - 1)
  }

  /** Repeat for lists of sizes and coordinates. */
  function Fill(x: nat, n: nat): seq<nat> { Repeat<nat>(x, n) }

  lemma {:induction false} DotZeros(n: nat, c: seq<int>)
    ensures Dot(Repeat<int>(0, n), c) == 0
  {
    if n > 0 && c != [] {
      DotZeros(n - 1, c[1..]);
    }
  }

  lemma {:induction false} ProductOnes(n: nat)
    ensures Product(Fill(1, n)) == 1
  {
    if n > 0 {
      ProductOnes(n - 1);
      assert Fill(1, n)[1..] == Fill(1, n - 1);
    }
  }

  // ---------------------------------------------------------------- broadcasting

  function Max(a: nat, b: nat): nat { if a < b then b else a }

  /** Size counted from the right; missing leading dimensions count as 1. */
  function FromRight(s: seq<nat>, k: nat): nat {
    if k < |s| then s[|s| - 1 - k] else 1
  }

  /** The common shape of two operands, built from the last dimension to the first. */
  function InferSize(a: seq<nat>, b: seq<nat>): (r: Option<seq<nat>>) {
    if a == [] then Some(b)
    else if b == [] then Some(a)
    else
      var x, y := a[|a| - 1], b[|b| - 1];
      if x != y && x != 1 && y != 1 then None
      else
        match InferSize(a[..|a| - 1], b[..|b| - 1])
        case None => None
        case Some(front) => Some(front + [if x == 1 then y else x])
  }

  /** Two shapes broadcast when, counted from the right, sizes agree or one of them is 1. */
  ghost predicate Broadcastable(a: seq<nat>, b: seq<nat>) {
    forall k: nat :: FromRight(a, k) == FromRight(b, k) || FromRight(a, k) == 1 || FromRight(b, k) == 1
  }

  ghost predicate IsBroadcastOf(a: seq<nat>, b: seq<nat>, c: seq<nat>) {
    && |c| == Max(|a|, |b|)
    && forall k: nat :: FromRight(c, k) == if FromRight(a, k) == 1 then FromRight(b, k) else FromRight(a, k)
  }

  lemma FromRightSplit(s: seq<nat>, k: nat)
    requires s != []
    ensures FromRight(s, 0) == s[|s| - 1]
    ensures k > 0 ==> FromRight(s, k) == FromRight(s[..|s| - 1], k - 1)
  {
  }

  lemma {:induction false} InferSizeIsBroadcast(a: seq<nat>, b: seq<nat>)
    ensures InferSize(a, b).Some? <==> Broadcastable(a, b)
    ensures InferSize(a, b).Some? ==> IsBroadcastOf(a, b, InferSize(a, b).value)
  {
    if a != [] && b != [] {
      var a', b' := a[..|a| - 1], b[..|b| - 1];
      InferSizeIsBroadcast(a', b');
      forall k: nat
        ensures k > 0 ==> FromRight(a, k) == FromRight(a', k - 1) && FromRight(b, k) == FromRight(b', k - 1)
        ensures FromRight(a, k + 1) == FromRight(a', k) && FromRight(b, k + 1) == FromRight(b', k)
      {
        FromRightSplit(a, k);
        FromRightSplit(b, k);
        FromRightSplit(a, k + 1);
        FromRightSplit(b, k + 1);
      }
      if Broadcastable(a, b) {
        assert FromRight(a, 0) == a[|a| - 1] && FromRight(b, 0) == b[|b| - 1];
        forall k: nat
          ensures FromRight(a', k) == FromRight(b', k) || FromRight(a', k) == 1 || FromRight(b', k) == 1
        {
          assert FromRight(a, k + 1) == FromRight(a', k);
        }
      }
      if InferSize(a, b).Some? {
        var c := InferSize(a, b).value;
        var front := InferSize(a', b').value;
        assert c[..|c| - 1] == front;
        forall k: nat
          ensures FromRight(c, k) == if FromRight(a, k) == 1 then FromRight(b, k) else FromRight(a, k)
        {
          FromRightSplit(c, k);
          FromRightSplit(a, k);
          FromRightSplit(b, k);
        }
        forall k: nat
          ensures FromRight(a, k) == FromRight(b, k) || FromRight(a, k) == 1 || FromRight(b, k) == 1
        {
          FromRightSplit(a, k);
          FromRightSplit(b, k);
        }
      }
    }
  }

  /** Sizes agree or are 1, dimension by dimension. */
  predicate Fits(sizes: seq<nat>, target: seq<nat>) {
    |sizes| == |target| &&
    (sizes == [] || ((sizes[0] == target[0] || sizes[0] == 1) && Fits(sizes[1..], target[1..])))
  }

  /** `expand` accepts the target: trailing sizes agree or are 1. */
  predicate Expandable(sizes: seq<nat>, target: seq<nat>) {
    |sizes| <= |target| && Fits(sizes, target[|target| - |sizes|..])
  }

  /** Coordinates of size-1 dimensions become 0. */
  function Collapse(sizes: seq<nat>, c: seq<nat>): (r: seq<nat>) {
    if sizes == [] || c == [] then []
    else [if sizes[0] == 1 then 0 else c[0]] + Collapse(sizes[1..], c[1..])
  }

  /** The coordinate of a broadcast operand that an output coordinate reads. */
  function BroadcastCoord(sizes: seq<nat>, c: seq<nat>): (r: seq<nat>) {
    if |sizes| <= |c| then Collapse(sizes, c[|c| - |sizes|..]) else []
  }

  lemma {:induction false} InBoundsDrop(sizes: seq<nat>, c: seq<nat>, n: nat)
    requires InBounds(sizes, c) && n <= |sizes|
    ensures InBounds(sizes[n..], c[n..]) && InBounds(sizes[..n], c[..n])
  {
    assert sizes == sizes[..n] + sizes[n..] && c == c[..n] + c[n..];
    InBoundsAppend(sizes[..n], sizes[n..], c[..n], c[n..]);
  }

  /** Reading a tensor at a coordinate of its own shape needs no broadcasting. */
  lemma {:induction false} CollapseSelf(sizes: seq<nat>, c: seq<nat>)
    requires InBounds(sizes, c)
    ensures Collapse(sizes, c) == c
  {
    if sizes != [] {
      CollapseSelf(sizes[1..], c[1..]);
    }
  }

  lemma {:induction false} CollapseAppend(s1: seq<nat>, s2: seq<nat>, c1: seq<nat>, c2: seq<nat>)
    requires |s1| == |c1|
    ensures Collapse(s1 + s2, c1 + c2) == Collapse(s1, c1) + Collapse(s2, c2)
  {
    if s1 == [] {
      assert s1 + s2 == s2 && c1 + c2 == c2;
    } else {
      CollapseAppend(s1[1..], s2, c1[1..], c2);
      assert (s1 + s2)[1..] == s1[1..] + s2 && (c1 + c2)[1..] == c1[1..] + c2;
    }
  }

  lemma {:induction false} CollapseOnes(n: nat, c: seq<nat>)
    requires |c| == n
    ensures Collapse(Fill(1, n), c) == Fill(0, n) && InBounds(Fill(1, n), Fill(0, n))
  {
    if n > 0 {
      CollapseOnes(n - 1, c[1..]);
      assert Fill(1, n)[1..] == Fill(1, n - 1) && Fill(0, n)[1..] == Fill(0, n - 1);
    }
  }

  lemma {:induction false} FitsByIndex(sizes: seq<nat>, target: seq<nat>)
    requires |sizes| == |target| && forall k :: 0 <= k < |sizes| ==> sizes[k] == target[k] || sizes[k] == 1
    ensures Fits(sizes, target)
  {
    if sizes != [] {
      FitsByIndex(sizes[1..], target[1..]);
    }
  }

  /** Both operands expand to the inferred shape. */
  lemma InferSizeExpands(a: seq<nat>, b: seq<nat>)
    requires InferSize(a, b).Some?
    ensures Expandable(a, InferSize(a, b).value) && Expandable(b, InferSize(a, b).value)
  {
    InferSizeIsBroadcast(a, b);
    var c := InferSize(a, b).value;
    BroadcastExpands(a, c);
    BroadcastExpands(b, c);
  }

  lemma BroadcastExpands(a: seq<nat>, c: seq<nat>)
    requires |a| <= |c| && forall k: nat :: FromRight(a, k) == 1 || FromRight(a, k) == FromRight(c, k)
    ensures Expandable(a, c)
  {
    var t := c[|c| - |a|..];
    forall k | 0 <= k < |a| ensures a[k] == t[k] || a[k] == 1 {
      assert FromRight(a, |a| - 1 - k) == a[k] && FromRight(c, |a| - 1 - k) == t[k];
    }
    FitsByIndex(a, t);
  }

  lemma {:induction false} FitsTransitive(a: seq<nat>, b: seq<nat>, c: seq<nat>)
    requires Fits(a, b) && Fits(b, c)
    ensures Fits(a, c)
  {
    if a != [] {
      FitsTransitive(a[1..], b[1..], c[1..]);
    }
  }

  lemma {:induction false} FitsDrop(a: seq<nat>, b: seq<nat>, n: nat)
    requires Fits(a, b) && n <= |a|
    ensures Fits(a[n..], b[n..])
  {
    if n > 0 {
      FitsDrop(a[1..], b[1..], n - 1);
      assert a[1..][n - 1..] == a[n..] && b[1..][n - 1..] == b[n..];
    }
  }

  lemma ExpandableTransitive(a: seq<nat>, b: seq<nat>, c: seq<nat>)
    requires Expandable(a, b) && Expandable(b, c)
    ensures Expandable(a, c)
  {
    var t := c[|c| - |b|..];
    FitsDrop(b, t, |b| - |a|);
    assert t[|b| - |a|..] == c[|c| - |a|..];
    FitsTransitive(a, b[|b| - |a|..], c[|c| - |a|..]);
  }
}
